// The per-layer KV cache (kv_cache.rs): a ring buffer for sliding layers and a growing
// list for global layers, with commit and rollback.
module KvCache {
  import opened Common

  /** Keys and values of the same tokens. */
  datatype Kv<T> = Kv(k: seq<T>, v: seq<T>) {
    ghost predicate Paired() {
      |k| == |v|
    }
  }

  /** The fields of a cache. `ring` is the preallocated pair of buffers, `global` the
      concatenated arrays, `snapshot` what rollback restores. */
  datatype Cache<T> = Cache(
    capacity: nat, isSliding: bool, global: Option<Kv<T>>, seqLen: nat, ring: Option<Kv<T>>,
    totalAppended: nat, logicalStart: nat, writePos: nat, committedLen: nat, snapshot: Option<Kv<T>>, evictions: nat)

  function New<T>(capacity: nat, isSliding: bool): Cache<T> {
    Cache(capacity, isSliding, None, 0, None, 0, 0, 0, 0, None, 0)
  }

  /** `buf[pos..pos + |xs|] := xs`. */
  function Overwrite<T>(buf: seq<T>, pos: nat, xs: seq<T>): (r: seq<T>)
    requires pos + |xs| <= |buf|
    ensures |r| == |buf|
  {
    buf[..pos] + xs + buf[pos + |xs|..]
  }

  // ---------------------------------------------------------------------
  // Appending
  // ---------------------------------------------------------------------

  /** The write of `append_sliding`: contiguous, or split in two at the end of the buffer. */
  function RingWrite<T>(buf: seq<T>, pos: nat, xs: seq<T>): (r: seq<T>)
    requires pos < |buf| && pos + |xs| <= 2 * |buf|
    ensures |r| == |buf|
  {
    if pos + |xs| <= |buf| then Overwrite(buf, pos, xs)
    else
      var first := |buf| - pos;
      Overwrite(Overwrite(buf, pos, xs[..first]), 0, xs[first..])
  }

  /** Both halves of a wrapping write are in range exactly under the bound of `RingWrite`. */
  lemma WrapInRange(capacity: nat, pos: nat, n: nat)
    requires pos < capacity && pos + n > capacity
    ensures var first := capacity - pos;
      first <= n && pos + first <= capacity && (n - first <= capacity <==> pos + n <= 2 * capacity)
  {
  }

  predicate IsFirst<T>(c: Cache<T>) {
    c.global.None? && c.ring.None?
  }

  /** What an append needs: sliding capacity (the code divides by it), and room for the
      second half of a wrapping write. */
  predicate CanAppend<T>(c: Cache<T>, n: nat) {
    c.isSliding ==> c.capacity > 0 && (IsFirst(c) || c.writePos + n <= 2 * c.capacity)
  }

  function FirstAppend<T>(c: Cache<T>, x: Kv<T>, filler: T): Cache<T>
    requires x.Paired() && (c.isSliding ==> c.capacity > 0)
  {
    var n := |x.k|;
    if !c.isSliding then
      c.(global := Some(x), totalAppended := n, seqLen := n, logicalStart := 0, writePos := n, committedLen := n)
    else
      var excess := if n > c.capacity then n - c.capacity else 0;
      var m := n - excess;
      var blank := seq(c.capacity, i => filler);
      c.(ring := Some(Kv(Overwrite(blank, 0, x.k[excess..]), Overwrite(blank, 0, x.v[excess..]))),
         totalAppended := m, seqLen := m, logicalStart := 0, writePos := m % c.capacity, committedLen := m,
         evictions := if n > c.capacity then excess else c.evictions)
  }

  function AppendSliding<T>(c: Cache<T>, x: Kv<T>): Cache<T>
    requires x.Paired() && c.ring.Some? && c.capacity > 0 && c.writePos < c.capacity
    requires |c.ring.value.k| == |c.ring.value.v| == c.capacity && c.writePos + |x.k| <= 2 * c.capacity
  {
    var n, cap := |x.k|, c.capacity;
    var total := c.totalAppended + n;
    c.(ring := Some(Kv(RingWrite(c.ring.value.k, c.writePos, x.k), RingWrite(c.ring.value.v, c.writePos, x.v))),
       writePos := (c.writePos + n) % cap, totalAppended := total, seqLen := Min(total, cap),
       logicalStart := if total > cap then total - cap else c.logicalStart,
       evictions := if total > cap then total - cap else c.evictions,
       snapshot := None)
  }

  function AppendGlobal<T>(c: Cache<T>, x: Kv<T>): Cache<T>
    requires c.global.Some?
  {
    var old_, n := c.global.value, |x.k|;
    c.(global := Some(Kv(old_.k + x.k, old_.v + x.v)),
       totalAppended := c.totalAppended + n, seqLen := c.seqLen + n, writePos := c.writePos + n, snapshot := Some(old_))
  }

  function Append<T>(c: Cache<T>, x: Kv<T>, filler: T): Cache<T>
    requires Valid(c) && x.Paired() && CanAppend(c, |x.k|)
  {
    if IsFirst(c) then FirstAppend(c, x, filler)
    else if c.isSliding then AppendSliding(c, x)
    else AppendGlobal(c, x)
  }

  // ---------------------------------------------------------------------
  // Commit, rollback, read, clear
  // ---------------------------------------------------------------------

  function Commit<T>(c: Cache<T>): Cache<T> {
    c.(committedLen := c.totalAppended, snapshot := None)
  }

  function Rollback<T>(c: Cache<T>): Cache<T>
    requires c.isSliding ==> c.capacity > 0
  {
    if c.totalAppended == c.committedLen && c.seqLen == c.committedLen then c
    else if c.isSliding then
      if c.committedLen == 0 then
        c.(ring := None, totalAppended := 0, seqLen := 0, logicalStart := 0, writePos := 0, snapshot := None)
      else
        var n := c.committedLen;
        c.(totalAppended := n, seqLen := Min(n, c.capacity), logicalStart := SatSub(n, c.capacity),
           writePos := n % c.capacity, snapshot := None)
    else
      c.(global := c.snapshot, totalAppended := c.committedLen, seqLen := c.committedLen,
         writePos := c.committedLen, snapshot := None)
  }

  function Clear<T>(c: Cache<T>): Cache<T> {
    New(c.capacity, c.isSliding)
  }

  /** `n` tokens of the ring from `start`, wrapping at the end of the buffer. */
  function RingRead<T>(buf: seq<T>, start: nat, n: nat): (r: seq<T>)
    requires start <= |buf| && n <= |buf|
    ensures |r| == n
  {
    if start + n <= |buf| then buf[start..start + n]
    else buf[start..] + buf[..n - (|buf| - start)]
  }

  function ReadWindow<T>(c: Cache<T>): Option<Kv<T>>
    requires Valid(c)
  {
    if !c.isSliding then c.global
    else if c.ring.None? || c.seqLen == 0 then None
    else
      var start := if c.totalAppended >= c.capacity then c.writePos else 0;
      Some(Kv(RingRead(c.ring.value.k, start, c.seqLen), RingRead(c.ring.value.v, start, c.seqLen)))
  }

  // ---------------------------------------------------------------------
  // Counter invariants
  // ---------------------------------------------------------------------

  /** The counters are functions of `totalAppended`, and committed tokens were appended. */
  ghost predicate Valid<T>(c: Cache<T>) {
    && c.committedLen <= c.totalAppended
    && (c.isSliding ==> c.global.None? && c.snapshot.None? && SlidingOk(c))
    && (!c.isSliding ==> c.ring.None? && GlobalOk(c))
  }

  ghost predicate SlidingOk<T>(c: Cache<T>) {
    && (c.ring.None? ==> c.totalAppended == 0 && c.writePos == 0)
    && (c.ring.Some? ==>
         && c.capacity > 0
         && |c.ring.value.k| == |c.ring.value.v| == c.capacity
         && c.writePos == c.totalAppended % c.capacity)
    && c.seqLen == Min(c.totalAppended, c.capacity)
    && c.logicalStart == SatSub(c.totalAppended, c.capacity)
  }

  ghost predicate GlobalOk<T>(c: Cache<T>) {
    && c.seqLen == c.writePos == c.totalAppended
    && (c.global.None? ==> c.totalAppended == 0)
    && (c.global.Some? ==> c.global.value.Paired() && |c.global.value.k| >= c.totalAppended)
    && (c.snapshot.Some? ==> c.global.Some? && c.snapshot.value.Paired() && |c.snapshot.value.k| >= c.committedLen)
    && (c.totalAppended > c.committedLen ==> c.snapshot.Some?)
  }

  // ---------------------------------------------------------------------
  // The ring holds the tail of the history
  // ---------------------------------------------------------------------

  /** Slot i % capacity holds token i of the history, for the last `capacity` tokens. */
  ghost predicate RingHolds<T>(buf: seq<T>, hist: seq<T>) {
    |buf| > 0 && forall i :: 0 <= i < |hist| && |hist| - |buf| <= i ==> buf[i % |buf|] == hist[i]
  }

  /** A residue seen from the write position. */
  lemma ModFrom(total: nat, cap: nat, d: int)
    requires cap > 0 && total + d >= 0 && d + cap >= 0
    requires total % cap + d < 2 * cap
    ensures var p := total % cap + d;
      (total + d) % cap == (if p < 0 then p + cap else if p < cap then p else p - cap)
  {
    var q, p := total / cap, total % cap + d;
    assert total == q * cap + total % cap;
    if p < 0 {
      assert total + d == (q - 1) * cap + (p + cap);
      DivModUnique(total + d, cap, q - 1, p + cap);
    } else if p < cap {
      DivModUnique(total + d, cap, q, p);
    } else {
      assert total + d == (q + 1) * cap + (p - cap);
      DivModUnique(total + d, cap, q + 1, p - cap);
    }
  }

  /** A ring write keeps the ring in step with the history. */
  lemma RingWriteHolds<T>(buf: seq<T>, hist: seq<T>, xs: seq<T>)
    requires RingHolds(buf, hist) && |hist| % |buf| + |xs| <= 2 * |buf|
    ensures RingHolds(RingWrite(buf, |hist| % |buf|, xs), hist + xs)
  {
    var cap, pos, total := |buf|, |hist| % |buf|, |hist|;
    var buf', hist' := RingWrite(buf, pos, xs), hist + xs;
    forall i | 0 <= i < |hist'| && |hist'| - cap <= i
      ensures buf'[i % cap] == hist'[i]
    {
      ModFrom(total, cap, i - total);
      if i < total {
        assert buf[i % cap] == hist[i];
      }
    }
  }

  /** The last `n` tokens of a history. */
  function LastN<T>(hist: seq<T>, n: nat): seq<T>
    requires n <= |hist|
  {
    hist[|hist| - n..]
  }

  /** Reading the ring gives the last tokens, oldest first. */
  lemma RingReadHolds<T>(buf: seq<T>, hist: seq<T>)
    requires RingHolds(buf, hist)
    ensures var n, start := Min(|hist|, |buf|), if |hist| >= |buf| then |hist| % |buf| else 0;
      start <= |buf| && RingRead(buf, start, n) == LastN(hist, n)
  {
    var cap, total := |buf|, |hist|;
    var n, start := Min(total, cap), if total >= cap then total % cap else 0;
    var r, l := RingRead(buf, start, n), LastN(hist, n);
    forall j | 0 <= j < n
      ensures r[j] == l[j]
    {
      var i := total - n + j;
      assert buf[i % cap] == hist[i];
      ModFrom(total, cap, i - total);
      if total < cap {
        DivModUnique(total, cap, 0, total);
      }
    }
  }

  // ---------------------------------------------------------------------
  // Histories
  // ---------------------------------------------------------------------

  /** `h` is the history the cache stands for: everything ever offered. A trimmed first
      append makes the counters run behind it, once more than `capacity` tokens exist. */
  ghost predicate Represents<T>(c: Cache<T>, h: Kv<T>) {
    && Valid(c) && h.Paired() && c.totalAppended <= |h.k|
    && (c.totalAppended < |h.k| ==> c.isSliding && c.totalAppended >= c.capacity && c.committedLen >= c.capacity)
    && (c.isSliding && c.ring.Some? ==>
         && RingHolds(c.ring.value.k, LastN(h.k, c.totalAppended))
         && RingHolds(c.ring.value.v, LastN(h.v, c.totalAppended)))
    && (!c.isSliding && c.global.Some? ==> c.global.value == h)
  }

  function Extend<T>(h: Kv<T>, x: Kv<T>): Kv<T> {
    Kv(h.k + x.k, h.v + x.v)
  }

  lemma AppendValid<T>(c: Cache<T>, x: Kv<T>, filler: T)
    requires Valid(c) && x.Paired() && CanAppend(c, |x.k|)
    ensures Valid(Append(c, x, filler))
    ensures Append(c, x, filler).totalAppended
         == c.totalAppended + (if IsFirst(c) && c.isSliding then Min(|x.k|, c.capacity) else |x.k|)
  {
    if !IsFirst(c) && c.isSliding {
      var n := Append(c, x, filler);
      ModSum(c.totalAppended, |x.k|, c.capacity);
    }
  }

  lemma ModSum(a: nat, b: nat, cap: nat)
    requires cap > 0
    ensures (a % cap + b) % cap == (a + b) % cap
  {
    var q, r := (a % cap + b) / cap, (a % cap + b) % cap;
    assert a + b == (a / cap + q) * cap + r;
    DivModUnique(a + b, cap, a / cap + q, r);
  }

  /** The history after an append: an append that starts the cache afresh starts the history. */
  function HistoryAfter<T>(c: Cache<T>, h: Kv<T>, x: Kv<T>): Kv<T> {
    if IsFirst(c) then x else Extend(h, x)
  }

  lemma FirstRepresents<T>(c: Cache<T>, x: Kv<T>, filler: T)
    requires Valid(c) && x.Paired() && CanAppend(c, |x.k|) && IsFirst(c)
    ensures Represents(Append(c, x, filler), x)
  {
    hide RingHolds, Overwrite, LastN, Valid;
    AppendValid(c, x, filler);
    if c.isSliding {
      FirstTail(c.capacity, x.k, filler);
      FirstTail(c.capacity, x.v, filler);
    }
  }

  lemma FirstTail<T>(cap: nat, xs: seq<T>, filler: T)
    requires cap > 0
    ensures var excess := if |xs| > cap then |xs| - cap else 0;
      RingHolds(Overwrite(seq(cap, i => filler), 0, xs[excess..]), LastN(xs, |xs| - excess))
  {
    var excess := if |xs| > cap then |xs| - cap else 0;
    FirstHolds(seq(cap, i => filler), xs[excess..]);
    assert LastN(xs, |xs| - excess) == xs[excess..];
  }

  lemma FirstHolds<T>(blank: seq<T>, xs: seq<T>)
    requires 0 < |blank| && |xs| <= |blank|
    ensures RingHolds(Overwrite(blank, 0, xs), xs)
  {
    forall i | 0 <= i < |xs|
      ensures Overwrite(blank, 0, xs)[i % |blank|] == xs[i]
    {
      DivModUnique(i, |blank|, 0, i);
    }
  }

  /** Appending keeps the cache in step with everything offered. */
  lemma AppendRepresents<T>(c: Cache<T>, h: Kv<T>, x: Kv<T>, filler: T)
    requires Represents(c, h) && x.Paired() && CanAppend(c, |x.k|)
    ensures Represents(Append(c, x, filler), HistoryAfter(c, h, x))
  {
    if IsFirst(c) {
      FirstRepresents(c, x, filler);
    } else {
      AppendValid(c, x, filler);
      hide RingHolds, RingWrite, LastN;
      if c.isSliding {
        TailGrows(c.ring.value.k, h.k, c.totalAppended, x.k);
        TailGrows(c.ring.value.v, h.v, c.totalAppended, x.v);
      }
      hide Valid;
    }
  }

  lemma TailGrows<T>(buf: seq<T>, h: seq<T>, total: nat, xs: seq<T>)
    requires total <= |h| && RingHolds(buf, LastN(h, total)) && total % |buf| + |xs| <= 2 * |buf|
    ensures RingHolds(RingWrite(buf, total % |buf|, xs), LastN(h + xs, total + |xs|))
  {
    RingWriteHolds(buf, LastN(h, total), xs);
    assert LastN(h, total) + xs == LastN(h + xs, total + |xs|);
  }

  /** A cache that represents a history shows the last `capacity` tokens of it (all of it on
      global layers), and nothing exactly when it holds nothing. */
  lemma WindowIsTail<T>(c: Cache<T>, h: Kv<T>)
    requires Represents(c, h) && !IsFirst(c)
    ensures var n := if c.isSliding then Min(|h.k|, c.capacity) else |h.k|;
      && (c.isSliding && n == 0 ==> ReadWindow(c).None?)
      && (!c.isSliding || n > 0 ==> ReadWindow(c) == Some(Kv(LastN(h.k, n), LastN(h.v, n))))
  {
    if c.isSliding {
      TailOfTail(c.ring.value.k, h.k, c.totalAppended);
      TailOfTail(c.ring.value.v, h.v, c.totalAppended);
      hide RingHolds, RingRead, LastN;
    } else {
      assert LastN(h.k, |h.k|) == h.k && LastN(h.v, |h.v|) == h.v;
    }
  }

  lemma TailOfTail<T>(buf: seq<T>, h: seq<T>, total: nat)
    requires total <= |h| && RingHolds(buf, LastN(h, total))
    requires total < |h| ==> total >= |buf|
    ensures var n, start := Min(total, |buf|), if total >= |buf| then total % |buf| else 0;
      n == Min(|h|, |buf|) && start <= |buf| && RingRead(buf, start, n) == LastN(h, n)
  {
    RingReadHolds(buf, LastN(h, total));
    assert LastN(LastN(h, total), Min(total, |buf|)) == LastN(h, Min(total, |buf|));
  }

  // ---------------------------------------------------------------------
  // Rollback
  // ---------------------------------------------------------------------

  /** The counters of a cache that has been offered and has committed `n` tokens. */
  ghost predicate CountersOf<T>(c: Cache<T>, n: nat) {
    && c.totalAppended == c.committedLen == n
    && c.seqLen == (if c.isSliding then Min(n, c.capacity) else n)
    && c.writePos == (if !c.isSliding then n else if c.capacity == 0 then 0 else n % c.capacity)
    && (c.isSliding ==> c.logicalStart == SatSub(n, c.capacity))
  }

  /** After a rollback the counters are those of the committed prefix, in every case. */
  lemma RollbackCounters<T>(c: Cache<T>)
    requires Valid(c) && (c.isSliding ==> c.capacity > 0)
    ensures Valid(Rollback(c)) && CountersOf(Rollback(c), c.committedLen)
  {
    if c.isSliding && c.committedLen == 0 {
      DivModUnique(0, c.capacity, 0, 0);
    }
  }

  /** Rolling back twice is rolling back once, and without pending tokens it does nothing. */
  lemma RollbackIdempotent<T>(c: Cache<T>)
    requires Valid(c) && (c.isSliding ==> c.capacity > 0)
    ensures Rollback(Rollback(c)) == Rollback(c)
    ensures c.totalAppended == c.committedLen ==> Rollback(c) == c
  {
    RollbackCounters(c);
  }

  /** Token i of the committed window after a rollback: its own value if token i was still
      in the ring, otherwise the newest token of the same slot. */
  function SlotOwner(i: nat, total: nat, cap: nat): (o: nat)
    requires cap > 0 && i < total
    ensures i <= o < total <= o + cap
    decreases total - i
  {
    if i + cap < total then SlotOwner(i + cap, total, cap) else i
  }

  lemma {:induction false} SlotOwnerSlot(i: nat, total: nat, cap: nat)
    requires cap > 0 && i < total
    ensures var o := SlotOwner(i, total, cap);
      o % cap == i % cap && (o == i <==> total <= i + cap)
    decreases total - i
  {
    if i + cap < total {
      SlotOwnerSlot(i + cap, total, cap);
      ModSum(i, cap, cap);
      DivModUnique(i % cap + cap, cap, 1, i % cap);
    }
  }

  /** The exact contents of the window after a rollback of a sliding cache: `hist` is what
      was appended, `n` tokens of it committed. */
  lemma RollbackWindow<T>(buf: seq<T>, hist: seq<T>, n: nat)
    requires RingHolds(buf, hist) && 0 < n <= |hist|
    ensures var cap := |buf|;
      var m, start := Min(n, cap), if n >= cap then n % cap else 0;
      start <= cap &&
      forall j :: 0 <= j < m ==> RingRead(buf, start, m)[j] == hist[SlotOwner(n - m + j, |hist|, cap)]
  {
    var cap := |buf|;
    var m, start := Min(n, cap), if n >= cap then n % cap else 0;
    forall j | 0 <= j < m
      ensures RingRead(buf, start, m)[j] == hist[SlotOwner(n - m + j, |hist|, cap)]
    {
      var i := n - m + j;
      SlotOwnerSlot(i, |hist|, cap);
      ModFrom(n, cap, i - n);
      if n < cap {
        DivModUnique(n, cap, 0, n);
      }
    }
  }

  /** With distinct tokens the window after a rollback is the committed window exactly when
      nothing was pending or nothing had been evicted. */
  lemma RollbackExactIff<T(!new)>(buf: seq<T>, hist: seq<T>, n: nat)
    requires RingHolds(buf, hist) && 0 < n <= |hist| && Distinct(hist)
    ensures var cap := |buf|;
      var m, start := Min(n, cap), if n >= cap then n % cap else 0;
      start <= cap &&
      (RingRead(buf, start, m) == LastN(hist[..n], m) <==> n == |hist| || |hist| <= cap)
  {
    hide *;
    var cap := |buf|;
    HoldsNonEmpty(buf, hist);
    var m, start := Min(n, cap), if n >= cap then n % cap else 0;
    RollbackWindow(buf, hist, n);
    MinIs(n, cap);
    var r, l := RingRead(buf, start, m), LastN(hist[..n], m);
    LastNAt(hist, n, m);
    if n == |hist| || |hist| <= cap {
      forall j | 0 <= j < m
        ensures r[j] == l[j]
      {
        SlotOwnerSlot(n - m + j, |hist|, cap);
      }
    } else {
      SlotOwnerSlot(n - m, |hist|, cap);
      assert r[0] == hist[SlotOwner(n - m, |hist|, cap)] && l[0] == hist[n - m];
      DistinctAt(hist, n - m, SlotOwner(n - m, |hist|, cap));
    }
  }

  lemma HoldsNonEmpty<T>(buf: seq<T>, hist: seq<T>)
    requires RingHolds(buf, hist)
    ensures |buf| > 0
  {
  }

  lemma MinIs(a: nat, b: nat)
    ensures Min(a, b) == if a <= b then a else b
  {
  }

  lemma LastNAt<T>(hist: seq<T>, n: nat, m: nat)
    requires m <= n <= |hist|
    ensures |LastN(hist[..n], m)| == m && forall j :: 0 <= j < m ==> LastN(hist[..n], m)[j] == hist[n - m + j]
  {
  }

  lemma DistinctAt<T(!new)>(hist: seq<T>, i: nat, j: nat)
    requires Distinct(hist) && i < j < |hist|
    ensures hist[i] != hist[j]
  {
  }

  /** The committed part of a history, given how many tokens are pending. */
  function Committed<T>(c: Cache<T>, h: Kv<T>): Kv<T>
    requires Represents(c, h)
  {
    var n := |h.k| - (c.totalAppended - c.committedLen);
    Kv(h.k[..n], h.v[..n])
  }

  /** When a rollback restores the committed state: nothing pending; for sliding layers, nothing
      evicted or nothing committed; for global layers, a snapshot of the committed length. */
  predicate RollbackSafe<T>(c: Cache<T>) {
    || c.totalAppended == c.committedLen
    || (c.isSliding && (c.totalAppended <= c.capacity || c.committedLen == 0))
    || (!c.isSliding && c.snapshot.Some? && |c.snapshot.value.k| == c.committedLen)
  }

  /** A snapshot is a prefix of what it will be rolled back from. */
  ghost predicate SnapshotIsPrefix<T>(c: Cache<T>) {
    !c.isSliding && c.snapshot.Some? && c.global.Some? ==>
      c.snapshot.value.k <= c.global.value.k && c.snapshot.value.v <= c.global.value.v
  }

  lemma RollbackRepresents<T>(c: Cache<T>, h: Kv<T>)
    requires Represents(c, h) && SnapshotIsPrefix(c) && RollbackSafe(c) && (c.isSliding ==> c.capacity > 0)
    ensures Represents(Rollback(c), Committed(c, h)) && SnapshotIsPrefix(Rollback(c))
  {
    RollbackCounters(c);
    if c.totalAppended == c.committedLen {
      RollbackIdempotent(c);
      assert Committed(c, h) == h;
    } else if c.isSliding {
      if c.committedLen > 0 && c.ring.Some? {
        TailShrinks(c.ring.value.k, h.k, c.committedLen);
        TailShrinks(c.ring.value.v, h.v, c.committedLen);
      }
      hide RingHolds, LastN, Valid;
    }
  }

  lemma TailShrinks<T>(buf: seq<T>, h: seq<T>, n: nat)
    requires n <= |h| <= |buf| && RingHolds(buf, LastN(h, |h|))
    ensures RingHolds(buf, LastN(h[..n], n))
  {
    assert LastN(h, |h|) == h && LastN(h[..n], n) == h[..n];
    RingShrinks(buf, h, n);
  }

  lemma RingShrinks<T>(buf: seq<T>, hist: seq<T>, n: nat)
    requires RingHolds(buf, hist) && n <= |hist| <= |buf|
    ensures RingHolds(buf, hist[..n])
  {
    forall i | 0 <= i < n
      ensures buf[i % |buf|] == hist[..n][i]
    {
      assert buf[i % |buf|] == hist[i];
    }
  }

  /** Two uncommitted appends of a global layer defeat the rollback: counters say 1, arrays hold 2. */
  lemma DoubleAppendDefeatsRollback(filler: int)
    ensures var c1 := Append(New<int>(8, false), Kv([1], [1]), filler);
      var c2 := Append(c1, Kv([2], [2]), filler);
      var c3 := Append(c2, Kv([3], [3]), filler);
      !RollbackSafe(c3) && Rollback(c3).seqLen == 1 && ReadWindow(Rollback(c3)) == Some(Kv([1, 2], [1, 2]))
  {
    var c1 := Append(New<int>(8, false), Kv([1], [1]), filler);
    var c2 := Append(c1, Kv([2], [2]), filler);
    assert c1.global == Some(Kv([1], [1]));
    assert [1] + [2] == [1, 2];
    assert c2.global == Some(Kv([1] + [2], [1] + [2]));
    var c3 := Append(c2, Kv([3], [3]), filler);
    assert c3.snapshot == c2.global && c3.totalAppended == 3 && c3.committedLen == 1;
  }

  /** So does an empty append after a nonempty one: it takes the snapshot too late. */
  lemma EmptyAppendDefeatsRollback(filler: int)
    ensures var c1 := Append(New<int>(8, false), Kv([1], [1]), filler);
      var c2 := Append(c1, Kv([2], [2]), filler);
      var c3 := Append(c2, Kv([], []), filler);
      !RollbackSafe(c3) && Rollback(c3).seqLen == 1 && ReadWindow(Rollback(c3)) == Some(Kv([1, 2], [1, 2]))
  {
    var c1 := Append(New<int>(8, false), Kv([1], [1]), filler);
    var c2 := Append(c1, Kv([2], [2]), filler);
    assert c1.global == Some(Kv([1], [1]));
    assert [1] + [2] == [1, 2];
    assert c2.global == Some(Kv([1] + [2], [1] + [2]));
    var c3 := Append(c2, Kv([], []), filler);
    assert c3.snapshot == c2.global && c3.totalAppended == 2 && c3.committedLen == 1;
  }

  // ---------------------------------------------------------------------
  // Whole runs against a transactional list
  // ---------------------------------------------------------------------

  /** What a cache is for: a list of tokens, a committed prefix of it, and whether it holds
      storage. `first` is the length of the append that started the storage (it commits itself),
      and `last` that of the latest append since the last commit, rollback or clear. */
  datatype Log<T> = Log(all: Kv<T>, committed: nat, started: bool, first: nat, last: nat)

  function EmptyLog<T>(): Log<T> {
    Log(Kv([], []), 0, false, 0, 0)
  }

  function LogAppend<T>(l: Log<T>, x: Kv<T>): Log<T> {
    if !l.started then Log(x, |x.k|, true, |x.k|, 0) else l.(all := Extend(l.all, x), last := |x.k|)
  }

  /** A sliding layer with nothing committed gives up its storage. */
  function LogRollback<T>(l: Log<T>, sliding: bool): Log<T> {
    if l.committed >= |l.all.k| || l.committed > |l.all.v| then l
    else if sliding && l.committed == 0 then EmptyLog()
    else l.(all := Kv(l.all.k[..l.committed], l.all.v[..l.committed]), last := 0)
  }

  function LogStep<T>(l: Log<T>, op: Op<T>, sliding: bool): Log<T> {
    match op
    case DoAppend(x) => LogAppend(l, x)
    case DoCommit => l.(committed := |l.all.k|, last := 0)
    case DoRollback => LogRollback(l, sliding)
    case DoClear => EmptyLog()
  }

  function RunLog<T>(sliding: bool, ops: seq<Op<T>>): Log<T> {
    if ops == [] then EmptyLog() else LogStep(RunLog(sliding, Front(ops)), Last(ops), sliding)
  }

  datatype Op<T> = DoAppend(x: Kv<T>) | DoCommit | DoRollback | DoClear

  /** When a rollback can be trusted, in terms of what the caller has done: nothing is pending; or,
      on a sliding layer, the list still fits the ring or nothing of it is committed; or, on a
      global layer, all pending tokens came in the latest append. */
  predicate Restorable<T>(l: Log<T>, sliding: bool, capacity: nat) {
    || l.committed == |l.all.k|
    || (sliding && (|l.all.k| <= capacity || l.committed == 0))
    || (!sliding && |l.all.k| - l.committed == l.last)
  }

  /** An append that fits; a rollback, whether it can be trusted or not. */
  ghost predicate Possible<T>(c: Cache<T>, op: Op<T>) {
    && Valid(c)
    && (op.DoAppend? ==> op.x.Paired() && CanAppend(c, |op.x.k|))
    && (op.DoRollback? && c.isSliding ==> c.capacity > 0)
  }

  /** An append that fits, a rollback that can be trusted. */
  ghost predicate Guard<T>(c: Cache<T>, l: Log<T>, op: Op<T>) {
    Possible(c, op) && (op.DoRollback? ==> Restorable(l, c.isSliding, c.capacity))
  }

  ghost function Step<T>(c: Cache<T>, op: Op<T>, filler: T): Cache<T>
    requires Possible(c, op)
  {
    match op
    case DoAppend(x) => Append(c, x, filler)
    case DoCommit => Commit(c)
    case DoRollback => Rollback(c)
    case DoClear => Clear(c)
  }

  ghost function RunOps<T>(capacity: nat, sliding: bool, ops: seq<Op<T>>, filler: T): Option<Cache<T>> {
    if ops == [] then Some(New(capacity, sliding))
    else
      match RunOps(capacity, sliding, Front(ops), filler)
      case None => None
      case Some(c) =>
        var l := RunLog(sliding, Front(ops));
        if Guard(c, l, Last(ops)) then Some(Step(c, Last(ops), filler)) else None
  }

  /** What the cache should show of a list. */
  ghost function Shown<T>(l: Log<T>, sliding: bool, capacity: nat): Option<Kv<T>>
    requires l.all.Paired()
  {
    var n := if sliding then Min(|l.all.k|, capacity) else |l.all.k|;
    if !l.started || (sliding && n == 0) then None else Some(Kv(LastN(l.all.k, n), LastN(l.all.v, n)))
  }

  /** The cache stands for the list; its counters leave out what a first append was trimmed by,
      and a global snapshot ends where the latest append begins. */
  ghost predicate Sim<T>(c: Cache<T>, l: Log<T>) {
    && Represents(c, l.all) && SnapshotIsPrefix(c)
    && l.committed <= |l.all.k| && |l.all.k| - l.committed == c.totalAppended - c.committedLen
    && (l.started <==> !IsFirst(c)) && (l.started && c.isSliding ==> c.capacity > 0)
    && (!l.started ==> l == EmptyLog())
    && |l.all.k| == c.totalAppended + (if c.isSliding then SatSub(l.first, c.capacity) else 0)
    && (!c.isSliding && l.committed < |l.all.k| ==> c.snapshot.Some? && |c.snapshot.value.k| + l.last == |l.all.k|)
  }

  ghost predicate SameKind<T>(c: Cache<T>, d: Cache<T>) {
    d.isSliding == c.isSliding && d.capacity == c.capacity
  }

  /** The caller's condition is the condition on the fields. */
  lemma RestorableMeans<T>(c: Cache<T>, l: Log<T>)
    requires Sim(c, l) && (c.isSliding ==> c.capacity > 0)
    ensures Restorable(l, c.isSliding, c.capacity) <==> RollbackSafe(c)
  {
    hide RingHolds, LastN;
  }

  lemma SimNew<T>(capacity: nat, sliding: bool)
    ensures Sim(New<T>(capacity, sliding), EmptyLog())
  {
  }

  lemma SimAppend<T>(c: Cache<T>, l: Log<T>, x: Kv<T>, filler: T)
    requires Sim(c, l) && x.Paired() && CanAppend(c, |x.k|)
    ensures Sim(Append(c, x, filler), LogAppend(l, x)) && SameKind(c, Append(c, x, filler))
  {
    AppendRepresents(c, l.all, x, filler);
    AppendValid(c, x, filler);
    if !IsFirst(c) && !c.isSliding {
      assert c.global.value.k <= c.global.value.k + x.k && c.global.value.v <= c.global.value.v + x.v;
    }
    hide RingHolds, Overwrite, RingWrite, Represents;
  }

  /** What a rollback does to the fields that the simulation looks at. */
  lemma RollbackFields<T>(c: Cache<T>)
    requires Valid(c) && (c.isSliding ==> c.capacity > 0)
    ensures SameKind(c, Rollback(c)) && Rollback(c).totalAppended == Rollback(c).committedLen == c.committedLen
    ensures c.totalAppended > c.committedLen && c.isSliding ==> (IsFirst(Rollback(c)) <==> c.committedLen == 0 || IsFirst(c))
    ensures c.totalAppended > c.committedLen && !c.isSliding ==> !IsFirst(Rollback(c))
  {
    RollbackCounters(c);
    hide RingHolds;
  }

  lemma SimRollback<T>(c: Cache<T>, l: Log<T>)
    requires Sim(c, l) && Restorable(l, c.isSliding, c.capacity) && (c.isSliding ==> c.capacity > 0)
    ensures Sim(Rollback(c), LogRollback(l, c.isSliding)) && SameKind(c, Rollback(c))
  {
    RestorableMeans(c, l);
    RollbackRepresents(c, l.all);
    RollbackFields(c);
    if l.committed == |l.all.k| {
      RollbackIdempotent(c);
    } else {
      RollbackList(c, l);
    }
  }

  lemma RollbackList<T>(c: Cache<T>, l: Log<T>)
    requires Sim(c, l) && l.committed < |l.all.k| && (c.isSliding ==> c.capacity > 0)
    requires Represents(Rollback(c), Committed(c, l.all)) && SnapshotIsPrefix(Rollback(c))
    requires Rollback(c).totalAppended == Rollback(c).committedLen == c.committedLen && SameKind(c, Rollback(c))
    requires c.isSliding ==> (IsFirst(Rollback(c)) <==> c.committedLen == 0 || IsFirst(c))
    requires !c.isSliding ==> !IsFirst(Rollback(c))
    ensures Sim(Rollback(c), LogRollback(l, c.isSliding))
  {
    assert Committed(c, l.all) == Kv(l.all.k[..l.committed], l.all.v[..l.committed]);
    hide RingHolds, Rollback, Valid, LastN;
  }

  lemma SimCommit<T>(c: Cache<T>, l: Log<T>)
    requires Sim(c, l)
    ensures Sim(Commit(c), l.(committed := |l.all.k|, last := 0)) && SameKind(c, Commit(c))
  {
    hide RingHolds;
  }

  lemma SimClear<T>(c: Cache<T>)
    ensures Sim(Clear(c), EmptyLog()) && SameKind(c, Clear(c))
  {
  }

  lemma SimStep<T>(c: Cache<T>, l: Log<T>, op: Op<T>, filler: T)
    requires Sim(c, l) && Guard(c, l, op)
    ensures Sim(Step(c, op, filler), LogStep(l, op, c.isSliding)) && SameKind(c, Step(c, op, filler))
  {
    hide Sim, Append, Rollback, Valid, LogAppend, LogRollback, CanAppend, Restorable, SameKind, Commit, Clear;
    match op {
      case DoAppend(x) => SimAppend(c, l, x, filler);
      case DoCommit => SimCommit(c, l);
      case DoRollback => SimRollback(c, l);
      case DoClear => SimClear(c);
    }
  }

  lemma {:induction false} RunSim<T>(capacity: nat, sliding: bool, ops: seq<Op<T>>, filler: T)
    requires RunOps(capacity, sliding, ops, filler).Some?
    ensures var c := RunOps(capacity, sliding, ops, filler).value;
      Sim(c, RunLog(sliding, ops)) && c.isSliding == sliding && c.capacity == capacity
  {
    if ops == [] {
      SimNew<T>(capacity, sliding);
    } else {
      hide Sim, Guard, Step, LogStep;
      RunSim(capacity, sliding, Front(ops), filler);
      SimStep(RunOps(capacity, sliding, Front(ops), filler).value, RunLog(sliding, Front(ops)), Last(ops), filler);
      KindIs(RunOps(capacity, sliding, Front(ops), filler).value, RunOps(capacity, sliding, ops, filler).value);
    }
  }

  lemma KindIs<T>(c: Cache<T>, d: Cache<T>)
    requires SameKind(c, d)
    ensures d.isSliding == c.isSliding && d.capacity == c.capacity
  {
  }

  lemma SimShows<T>(c: Cache<T>, l: Log<T>)
    requires Sim(c, l)
    ensures Valid(c) && l.all.Paired() && ReadWindow(c) == Shown(l, c.isSliding, c.capacity)
  {
    hide RingHolds, RingRead, LastN;
    if l.started {
      WindowIsTail(c, l.all);
    }
  }

  /** Over every sequence of appends, commits, trusted rollbacks and clears, the window is the
      last `capacity` tokens of the list (all of them on a global layer). */
  lemma {:induction false} CacheRefinesList<T>(capacity: nat, sliding: bool, ops: seq<Op<T>>, filler: T)
    requires RunOps(capacity, sliding, ops, filler).Some?
    ensures var c, l := RunOps(capacity, sliding, ops, filler).value, RunLog(sliding, ops);
      && Valid(c) && l.all.Paired()
      && ReadWindow(c) == Shown(l, sliding, capacity)
  {
    RunSim(capacity, sliding, ops, filler);
    SimShows(RunOps(capacity, sliding, ops, filler).value, RunLog(sliding, ops));
  }

  /** `logical_start` is the absolute position of the oldest cached token, as documented, exactly
      when the append that started the storage was not trimmed. */
  lemma {:induction false} LogicalStartIff<T>(capacity: nat, ops: seq<Op<T>>, filler: T)
    requires RunOps(capacity, true, ops, filler).Some?
    ensures var c, l := RunOps(capacity, true, ops, filler).value, RunLog(true, ops);
      c.logicalStart + c.seqLen == |l.all.k| <==> l.first <= capacity
  {
    RunSim(capacity, true, ops, filler);
    hide RingHolds, LastN, RunOps, RunLog;
  }

  /** Three tokens into a window of two: the oldest cached token is number 1, not number 0. */
  lemma TrimmedFirstAppendMisplaces(filler: int)
    ensures var ops := [DoAppend(Kv([7, 8, 9], [7, 8, 9]))];
      var r := RunOps(2, true, ops, filler);
      && r.Some? && r.value.logicalStart == 0 && Valid(r.value)
      && ReadWindow(r.value) == Some(Kv([8, 9], [8, 9])) && RunLog(true, ops).all.k == [7, 8, 9]
  {
    var x := Kv([7, 8, 9], [7, 8, 9]);
    var ops := [DoAppend(x)];
    assert Front(ops) == [] && RunOps(2, true, [], filler) == Some(New(2, true)) && RunLog<int>(true, []) == EmptyLog();
    var c := Append(New(2, true), x, filler);
    assert RunOps(2, true, ops, filler) == Some(c) && RunLog(true, ops) == LogAppend(EmptyLog(), x);
    CacheRefinesList(2, true, ops, filler);
    assert LastN(x.k, 2) == [8, 9];
  }

  /** The tail of the committed list, seen through the counters. */
  lemma TailOfPrefix<T>(all: seq<T>, total: nat, n: nat, committed: nat, m: nat)
    requires n <= total <= |all| && |all| - total == committed - n && m <= n
    ensures LastN(LastN(all, total)[..n], m) == LastN(all[..committed], m)
  {
  }

  lemma DistinctTail<T(!new)>(hist: seq<T>, n: nat)
    requires Distinct(hist) && n <= |hist|
    ensures Distinct(LastN(hist, n))
  {
    var tail, d := LastN(hist, n), |hist| - n;
    forall i, j | 0 <= i < j < |tail|
      ensures tail[i] != tail[j]
    {
      DistinctAt(hist, d + i, d + j);
    }
  }

  /** The keys of a window; an empty cache shows none. */
  function Tokens<T>(window: Option<Kv<T>>): seq<T> {
    if window.Some? then window.value.k else []
  }

  /** The window of a list of tokens. */
  function TailTokens<T>(all: seq<T>, sliding: bool, capacity: nat): seq<T> {
    LastN(all, if sliding then Min(|all|, capacity) else |all|)
  }

  /** The ring of a sliding cache with committed tokens. */
  lemma CommittedRing<T>(c: Cache<T>, l: Log<T>)
    requires Sim(c, l) && c.isSliding && c.capacity > 0 && l.committed > 0
    ensures Valid(c) && c.ring.Some? && |c.ring.value.k| == c.capacity
    ensures 0 < c.committedLen <= c.totalAppended <= |l.all.k|
    ensures |l.all.k| - c.totalAppended == l.committed - c.committedLen
    ensures c.totalAppended < |l.all.k| ==> c.committedLen >= c.capacity
    ensures RingHolds(c.ring.value.k, LastN(l.all.k, c.totalAppended))
  {
    hide RingHolds, LastN;
  }

  /** The window after a rollback, whatever has been overwritten. */
  lemma RollbackReads<T>(c: Cache<T>)
    requires Valid(c) && c.isSliding && c.capacity > 0 && c.committedLen > 0 && Valid(Rollback(c)) && c.ring.Some?
    ensures var n, cap := c.committedLen, c.capacity;
      var m, start := Min(n, cap), if n >= cap then n % cap else 0;
      start <= cap && Tokens(ReadWindow(Rollback(c))) == RingRead(c.ring.value.k, start, m)
  {
    hide RingRead;
    if c.totalAppended == c.committedLen && c.committedLen < c.capacity {
      DivModUnique(c.committedLen, c.capacity, 0, c.committedLen);
    }
  }

  lemma ShownTokens<T>(l: Log<T>, sliding: bool, capacity: nat)
    requires LogRollback(l, sliding).all.Paired() && l.committed <= |l.all.k| <= |l.all.v|
    requires !l.started ==> l == EmptyLog()
    ensures Tokens(Shown(LogRollback(l, sliding), sliding, capacity)) == TailTokens(l.all.k[..l.committed], sliding, capacity)
  {
    assert l.all.k[..|l.all.k|] == l.all.k;
  }

  /** An untrusted rollback shows other keys than the committed ones. */
  lemma WrongTokens<T(!new)>(c: Cache<T>, l: Log<T>)
    requires Sim(c, l) && (c.isSliding ==> c.capacity > 0) && !RollbackSafe(c) && Distinct(l.all.k)
    requires Valid(Rollback(c)) && LogRollback(l, c.isSliding).all.Paired() && l.committed <= |l.all.k| <= |l.all.v|
    ensures Tokens(ReadWindow(Rollback(c))) != Tokens(Shown(LogRollback(l, c.isSliding), c.isSliding, c.capacity))
  {
    UnsafeMeans(c, l);
    ShownTokens(l, c.isSliding, c.capacity);
    if c.isSliding {
      CommittedRing(c, l);
      RollbackReads(c);
      hide Sim, Valid, ReadWindow, Rollback, Tokens, RingHolds, RingRead, RollbackSafe, Shown, LogRollback;
      var total, n := c.totalAppended, c.committedLen;
      DistinctTail(l.all.k, total);
      RollbackExactIff(c.ring.value.k, LastN(l.all.k, total), n);
      TailOfPrefix(l.all.k, total, n, l.committed, Min(n, c.capacity));
    }
  }

  lemma UnsafeMeans<T>(c: Cache<T>, l: Log<T>)
    requires Sim(c, l) && !RollbackSafe(c) && Valid(Rollback(c)) && (c.isSliding ==> c.capacity > 0)
    ensures c.isSliding ==> l.committed > 0 && c.committedLen < c.totalAppended && c.totalAppended > c.capacity
    ensures !c.isSliding ==> |Tokens(ReadWindow(Rollback(c)))| != l.committed
    ensures !l.started ==> l == EmptyLog()
  {
    hide RingHolds;
  }

  /** After any run, a rollback shows the committed list if and only if the caller's condition
      holds: on a global layer, that all pending tokens came in the latest append; on a sliding
      one, that the list fits the ring or nothing of it is committed; or that nothing is pending. */
  lemma {:induction false} RollbackRestoresIff<T(!new)>(capacity: nat, sliding: bool, ops: seq<Op<T>>, filler: T)
    requires RunOps(capacity, sliding, ops, filler).Some? && (sliding ==> capacity > 0)
    requires Distinct(RunLog(sliding, ops).all.k)
    ensures SameKind(New(capacity, sliding), RunOps(capacity, sliding, ops, filler).value)
    ensures var c, l := RunOps(capacity, sliding, ops, filler).value, RunLog(sliding, ops);
      && Valid(Rollback(c)) && LogRollback(l, sliding).all.Paired()
      && (ReadWindow(Rollback(c)) == Shown(LogRollback(l, sliding), sliding, capacity) <==> Restorable(l, sliding, capacity))
  {
    var c, l := RunOps(capacity, sliding, ops, filler).value, RunLog(sliding, ops);
    RunSim(capacity, sliding, ops, filler);
    assert SameKind(New(capacity, sliding), c);
    RollbackValid(c, l);
    RestorableMeans(c, l);
    hide *;
    if Restorable(l, sliding, capacity) {
      SimRollback(c, l);
      SimShows(Rollback(c), LogRollback(l, sliding));
      KindIs(c, Rollback(c));
    } else {
      WrongTokens(c, l);
    }
  }

  lemma RollbackValid<T>(c: Cache<T>, l: Log<T>)
    requires Sim(c, l) && (c.isSliding ==> c.capacity > 0)
    ensures Valid(Rollback(c)) && LogRollback(l, c.isSliding).all.Paired()
  {
    RollbackCounters(c);
    hide RingHolds, LastN;
  }

  // ---------------------------------------------------------------------
  // What the caller committed
  // ---------------------------------------------------------------------

  /** How many tokens the caller has committed: those at the latest commit step. The first
      append counts itself as committed as well; the caller did not say so. */
  function Told<T>(sliding: bool, ops: seq<Op<T>>): (n: nat)
    ensures var l := RunLog(sliding, ops);
      n <= l.committed <= |l.all.k| && (!l.started ==> l.committed == |l.all.k| == 0)
  {
    if ops == [] then 0
    else
      var before := Told(sliding, Front(ops));
      match Last(ops)
      case DoCommit => |RunLog(sliding, ops).all.k|
      case DoClear => 0
      case _ => before
  }

  /** The last token that a rollback shows was committed last, or later. */
  lemma RollbackShowsNewer<T>(c: Cache<T>, l: Log<T>)
    requires Sim(c, l) && c.isSliding && c.capacity > 0 && Valid(Rollback(c)) && l.committed > 0
    ensures |Tokens(ReadWindow(Rollback(c)))| == Min(l.committed, c.capacity) > 0
    ensures exists i :: l.committed - 1 <= i < |l.all.k| && Last(Tokens(ReadWindow(Rollback(c)))) == l.all.k[i]
  {
    hide *;
    CommittedRing(c, l);
    RollbackReads(c);
    LastOwner(c.ring.value.k, l.all.k, c.totalAppended, c.committedLen);
    SameMin(l.committed, c.committedLen, c.capacity);
  }

  lemma SameMin(a: nat, b: nat, cap: nat)
    requires a == b || (a >= cap && b >= cap)
    ensures Min(a, cap) == Min(b, cap) && (a > 0 && cap > 0 ==> Min(a, cap) > 0)
  {
  }

  /** The newest slot of the window belongs to the n-th token of the tail, or to a newer one. */
  lemma LastOwner<T>(buf: seq<T>, all: seq<T>, total: nat, n: nat)
    requires 0 < n <= total <= |all| && RingHolds(buf, LastN(all, total))
    ensures var m, start := Min(n, |buf|), if n >= |buf| then n % |buf| else 0;
      && 0 < m && start <= |buf|
      && exists i :: |all| - total + n - 1 <= i < |all| && Last(RingRead(buf, start, m)) == all[i]
  {
    HoldsNonEmpty(buf, LastN(all, total));
    RollbackWindow(buf, LastN(all, total), n);
    var owner := SlotOwner(n - 1, total, |buf|);
    hide RingHolds, RingRead, SlotOwner;
    var m, start := Min(n, |buf|), if n >= |buf| then n % |buf| else 0;
    assert RingRead(buf, start, m)[m - 1] == LastN(all, total)[owner];
    assert LastN(all, total)[owner] == all[|all| - total + owner];
  }

  /** A rollback that keeps more than the caller committed shows it. */
  lemma KeepsTooMuch<T(!new)>(c: Cache<T>, l: Log<T>, told: nat)
    requires Sim(c, l) && (c.isSliding ==> c.capacity > 0) && Valid(Rollback(c)) && Distinct(l.all.k)
    requires told < l.committed
    ensures Tokens(ReadWindow(Rollback(c))) != TailTokens(l.all.k[..told], c.isSliding, c.capacity)
  {
    if c.isSliding {
      RollbackShowsNewer(c, l);
      hide *;
      NewerDiffers(l.all.k, told, l.committed, c.capacity, Tokens(ReadWindow(Rollback(c))));
    } else {
      GlobalShows(c, l);
    }
  }

  lemma NewerDiffers<T(!new)>(all: seq<T>, told: nat, committed: nat, capacity: nat, shown: seq<T>)
    requires Distinct(all) && told < committed <= |all| && capacity > 0 && |shown| == Min(committed, capacity) > 0
    requires exists i :: committed - 1 <= i < |all| && Last(shown) == all[i]
    ensures shown != TailTokens(all[..told], true, capacity)
  {
    hide Distinct;
    var expected := TailTokens(all[..told], true, capacity);
    if |shown| == |expected| {
      var i :| committed - 1 <= i < |all| && Last(shown) == all[i];
      assert Last(expected) == all[told - 1];
      DistinctAt(all, told - 1, i);
    }
  }

  /** A global rollback never shows fewer tokens than are committed. */
  lemma GlobalShows<T>(c: Cache<T>, l: Log<T>)
    requires Sim(c, l) && !c.isSliding && Valid(Rollback(c))
    ensures |Tokens(ReadWindow(Rollback(c)))| >= l.committed
  {
  }

  /** The first append keeps itself: an append that was never committed stays after a rollback. */
  lemma UncommittedFirstAppendStays(sliding: bool, filler: int)
    ensures var ops := [DoAppend(Kv([7], [7]))];
      var r := RunOps(4, sliding, ops, filler);
      && r.Some? && Valid(r.value) && r.value.isSliding == sliding && r.value.capacity == 4
      && Told(sliding, ops) == 0 && Restorable(RunLog(sliding, ops), sliding, 4)
      && ReadWindow(New<int>(4, sliding)) == None && Valid(Rollback(r.value))
      && ReadWindow(Rollback(r.value)) == Some(Kv([7], [7]))
  {
    var x := Kv([7], [7]);
    var ops := [DoAppend(x)];
    assert Front(ops) == [] && RunOps(4, sliding, [], filler) == Some(New(4, sliding));
    assert RunLog<int>(sliding, []) == EmptyLog() && Told<int>(sliding, []) == 0;
    var c := Append(New(4, sliding), x, filler);
    assert RunOps(4, sliding, ops, filler) == Some(c) && RunLog(sliding, ops) == LogAppend(EmptyLog(), x);
    CacheRefinesList(4, sliding, ops, filler);
    assert LastN([7], 1) == [7];
    RollbackIdempotent(c);
  }

  /** The next rollback: after operations whose earlier rollbacks could be trusted, it shows exactly
      the tokens of the caller's latest commit if and only if nothing else counts as committed (the
      first append has been followed by a commit) and this rollback can be trusted, too. */
  lemma {:induction false} RollbackKeepsToldIff<T(!new)>(capacity: nat, sliding: bool, ops: seq<Op<T>>, filler: T)
    requires RunOps(capacity, sliding, ops, filler).Some? && (sliding ==> capacity > 0)
    requires Distinct(RunLog(sliding, ops).all.k)
    ensures SameKind(New(capacity, sliding), RunOps(capacity, sliding, ops, filler).value)
    ensures var c, l, told := RunOps(capacity, sliding, ops, filler).value, RunLog(sliding, ops), Told(sliding, ops);
      && Valid(Rollback(c))
      && (Tokens(ReadWindow(Rollback(c))) == TailTokens(l.all.k[..told], sliding, capacity)
          <==> told == l.committed && Restorable(l, sliding, capacity))
  {
    hide *;
    RunFacts(capacity, sliding, ops, filler);
    var c, l, told := RunOps(capacity, sliding, ops, filler).value, RunLog(sliding, ops), Told(sliding, ops);
    if told < l.committed {
      KeepsTooMuch(c, l, told);
    } else {
      RollbackRestoresIff(capacity, sliding, ops, filler);
      CommittedTokens(c, l);
    }
  }

  lemma RunFacts<T(!new)>(capacity: nat, sliding: bool, ops: seq<Op<T>>, filler: T)
    requires RunOps(capacity, sliding, ops, filler).Some? && (sliding ==> capacity > 0)
    ensures SameKind(New(capacity, sliding), RunOps(capacity, sliding, ops, filler).value)
    ensures var c, l := RunOps(capacity, sliding, ops, filler).value, RunLog(sliding, ops);
      && Sim(c, l) && c.isSliding == sliding && c.capacity == capacity && Valid(Rollback(c))
  {
    hide RunOps, RunLog, Sim, Rollback, Valid, LogRollback;
    RunSim(capacity, sliding, ops, filler);
    RollbackValid(RunOps(capacity, sliding, ops, filler).value, RunLog(sliding, ops));
  }

  // ---------------------------------------------------------------------
  // Rollbacks at any time
  // ---------------------------------------------------------------------

  ghost function AnyRun<T>(capacity: nat, sliding: bool, ops: seq<Op<T>>, filler: T): Option<Cache<T>> {
    if ops == [] then Some(New(capacity, sliding))
    else
      match AnyRun(capacity, sliding, Front(ops), filler)
      case None => None
      case Some(c) => if Possible(c, Last(ops)) then Some(Step(c, Last(ops), filler)) else None
  }

  /** What a rollback after `ops` must meet. */
  predicate Trusted<T>(capacity: nat, sliding: bool, ops: seq<Op<T>>) {
    var l := RunLog(sliding, ops);
    Told(sliding, ops) == l.committed && Restorable(l, sliding, capacity)
  }

  /** Every rollback met the condition when it was made. */
  ghost predicate AllTrusted<T>(capacity: nat, sliding: bool, ops: seq<Op<T>>) {
    ops != [] ==>
      && AllTrusted(capacity, sliding, Front(ops))
      && (Last(ops).DoRollback? ==> Trusted(capacity, sliding, Front(ops)))
  }

  /** The cache `c`, rolled back after `ops`, shows the tokens of the latest commit. */
  ghost predicate ShowsTold<T>(capacity: nat, sliding: bool, ops: seq<Op<T>>, c: Cache<T>)
    requires Valid(c)
  {
    var l, told := RunLog(sliding, ops), Told(sliding, ops);
    Tokens(ReadWindow(c)) == TailTokens(l.all.k[..told], sliding, capacity)
  }

  /** Every rollback showed what it should when it was made. */
  ghost predicate AllShown<T>(capacity: nat, sliding: bool, ops: seq<Op<T>>, filler: T)
    requires AnyRun(capacity, sliding, ops, filler).Some?
  {
    ops != [] ==>
      && AllShown(capacity, sliding, Front(ops), filler)
      && (Last(ops).DoRollback? ==>
           var c := AnyRun(capacity, sliding, ops, filler).value;
           Valid(c) && ShowsTold(capacity, sliding, Front(ops), c))
  }

  /** The list never held a token twice. */
  ghost predicate AlwaysDistinct<T(!new)>(sliding: bool, ops: seq<Op<T>>) {
    Distinct(RunLog(sliding, ops).all.k) && (ops != [] ==> AlwaysDistinct(sliding, Front(ops)))
  }

  /** As long as rollbacks can be trusted, this is a run of the guarded kind. */
  lemma {:induction false} TrustedRun<T>(capacity: nat, sliding: bool, ops: seq<Op<T>>, filler: T)
    requires AnyRun(capacity, sliding, ops, filler).Some? && AllTrusted(capacity, sliding, ops)
    ensures RunOps(capacity, sliding, ops, filler) == AnyRun(capacity, sliding, ops, filler)
  {
    if ops != [] {
      hide Valid, Append, Commit, Rollback, Clear, RunLog, CanAppend, Restorable, Told;
      TrustedRun(capacity, sliding, Front(ops), filler);
      RunKind(capacity, sliding, Front(ops), filler);
    }
  }

  lemma RunKind<T>(capacity: nat, sliding: bool, ops: seq<Op<T>>, filler: T)
    requires RunOps(capacity, sliding, ops, filler).Some?
    ensures var c := RunOps(capacity, sliding, ops, filler).value; c.isSliding == sliding && c.capacity == capacity
  {
    RunSim(capacity, sliding, ops, filler);
    hide *;
  }

  /** The documented transaction, over all runs with distinct tokens: every rollback showed exactly
      the tokens of the caller's latest commit, if and only if every rollback was made when nothing
      else counted as committed and it could be trusted. */
  lemma {:induction false} RollbacksShowToldIff<T(!new)>(capacity: nat, sliding: bool, ops: seq<Op<T>>, filler: T)
    requires AnyRun(capacity, sliding, ops, filler).Some? && AlwaysDistinct(sliding, ops)
    ensures AllShown(capacity, sliding, ops, filler) <==> AllTrusted(capacity, sliding, ops)
  {
    if ops != [] {
      hide Valid, Append, Commit, Rollback, Clear, RunLog, Restorable, Told, ReadWindow, Distinct, Tokens, TailTokens;
      RollbacksShowToldIff(capacity, sliding, Front(ops), filler);
      if AllTrusted(capacity, sliding, Front(ops)) && Last(ops).DoRollback? {
        TrustedRun(capacity, sliding, Front(ops), filler);
        RunKind(capacity, sliding, Front(ops), filler);
        RollbackKeepsToldIff(capacity, sliding, Front(ops), filler);
      }
    }
  }

  /** A token evicted by an uncommitted append does not come back: a window of one, a committed
      token and a pending one. */
  lemma EvictedTokenIsLost(filler: int)
    ensures var ops := [DoAppend(Kv([7], [7])), DoCommit, DoAppend(Kv([8], [8]))];
      var r := RunOps(1, true, ops, filler);
      && r.Some? && Told(true, ops) == 1 && RunLog(true, ops).all.k == [7, 8]
      && Valid(Rollback(r.value)) && Tokens(ReadWindow(Rollback(r.value))) != [7]
  {
    var ops := [DoAppend(Kv([7], [7])), DoCommit, DoAppend(Kv([8], [8]))];
    ThreeSteps(Kv([7], [7]), Kv([8], [8]), filler);
    var l := Log(Kv([7, 8], [7, 8]), 1, true, 1, 1);
    assert [7] + [8] == [7, 8] && [7, 8][..1] == [7];
    assert !Restorable(l, true, 1) && TailTokens([7, 8][..1], true, 1) == [7] && Distinct(l.all.k);
    hide *;
    RollbackKeepsToldIff(1, true, ops, filler);
  }

  lemma ThreeSteps(x: Kv<int>, y: Kv<int>, filler: int)
    requires x.Paired() && y.Paired() && |x.k| == |y.k| == 1
    ensures var ops := [DoAppend(x), DoCommit, DoAppend(y)];
      RunOps(1, true, ops, filler).Some? && Told(true, ops) == 1 && RunLog(true, ops) == Log(Extend(x, y), 1, true, 1, 1)
  {
    hide RingHolds, RingWrite, Overwrite, LastN;
    var ops := [DoAppend(x), DoCommit, DoAppend(y)];
    var first, second := [DoAppend(x)], [DoAppend(x), DoCommit];
    assert Front(first) == [] && Front(second) == first && Front(ops) == second;
    assert RunLog<int>(true, []) == EmptyLog() && RunOps(1, true, [], filler) == Some(New(1, true));
    assert RunLog(true, first) == Log(x, 1, true, 1, 0) && Told(true, first) == 0;
    assert RunLog(true, second) == Log(x, 1, true, 1, 0) && Told(true, second) == 1;
    AppendValid(New<int>(1, true), x, filler);
    var c1 := Append(New<int>(1, true), x, filler);
    assert RunOps(1, true, first, filler) == Some(c1);
    assert RunOps(1, true, second, filler) == Some(Commit(c1));
  }

  /** Showing the committed list and showing its tokens are the same. */
  lemma CommittedTokens<T(!new)>(c: Cache<T>, l: Log<T>)
    requires Sim(c, l) && (c.isSliding ==> c.capacity > 0) && Valid(Rollback(c)) && Distinct(l.all.k)
    requires LogRollback(l, c.isSliding).all.Paired() && l.committed <= |l.all.k|
    ensures ReadWindow(Rollback(c)) == Shown(LogRollback(l, c.isSliding), c.isSliding, c.capacity)
       <==> Tokens(ReadWindow(Rollback(c))) == TailTokens(l.all.k[..l.committed], c.isSliding, c.capacity)
  {
    var shown := Shown(LogRollback(l, c.isSliding), c.isSliding, c.capacity);
    ShownTokens(l, c.isSliding, c.capacity);
    RestorableMeans(c, l);
    if Tokens(ReadWindow(Rollback(c))) == Tokens(shown) {
      if Restorable(l, c.isSliding, c.capacity) {
        SimRollback(c, l);
        SimShows(Rollback(c), LogRollback(l, c.isSliding));
      } else {
        hide Restorable;
        WrongTokens(c, l);
      }
    }
  }

}
