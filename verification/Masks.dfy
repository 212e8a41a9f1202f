// The attention masks (executor.rs) and what they select from the cached keys.
module Masks {
  import opened Common
  import opened KvCache

  /** A mask entry: added to a score it leaves it alone, or removes the key. */
  datatype MaskValue = Zero | NegInf

  function Add(a: MaskValue, b: MaskValue): MaskValue {
    if a.NegInf? || b.NegInf? then NegInf else Zero
  }

  function CausalAt(offset: nat, i: nat, j: nat): MaskValue {
    if j > offset + i then NegInf else Zero
  }

  function SlidingAt(window: nat, offset: nat, i: nat, j: nat): MaskValue {
    var queryPos := offset + i;
    if j < SatSub(queryPos + 1, window) || j > queryPos then NegInf else Zero
  }

  // ---------------------------------------------------------------------
  // Filling the matrices
  // ---------------------------------------------------------------------

  /** The flat row-major matrix with entry `f(i, j)` in row i and column j. */
  function Matrix(rows: nat, cols: nat, f: (nat, nat) -> MaskValue): seq<MaskValue> {
    if cols == 0 then [] else seq(rows * cols, k requires 0 <= k => f(k / cols, k % cols))
  }

  lemma MatrixAt(rows: nat, cols: nat, f: (nat, nat) -> MaskValue, i: nat, j: nat)
    requires i < rows && j < cols
    ensures i * cols + j < |Matrix(rows, cols, f)| && Matrix(rows, cols, f)[i * cols + j] == f(i, j)
  {
    assert (i + 1) * cols == i * cols + cols;
    MulMono(i + 1, rows, cols);
    DivModUnique(i * cols + j, cols, i, j);
  }

  /** The inner loop of the masks: remove the keys outside [minKey, maxKey] from one row. */
  method FillRow(d: array<MaskValue>, base: nat, cols: nat, minKey: nat, maxKey: nat)
    requires base + cols <= d.Length
    requires forall k :: base <= k < d.Length ==> d[k] == Zero
    modifies d
    ensures d[..base] == old(d[..base])
    ensures d[base..base + cols] == seq(cols, j => Outside(j, minKey, maxKey))
    ensures forall k :: base + cols <= k < d.Length ==> d[k] == Zero
  {
    for j := 0 to cols
      invariant d[..base] == old(d[..base])
      invariant forall k :: base <= k < base + j ==> d[k] == Outside(k - base, minKey, maxKey)
      invariant forall k :: base + j <= k < d.Length ==> d[k] == Zero
    {
      if j < minKey || j > maxKey {
        d[base + j] := NegInf;
      }
    }
  }

  function Outside(j: int, minKey: nat, maxKey: nat): MaskValue {
    if j < minKey || j > maxKey then NegInf else Zero
  }

  /** The first i rows of `m` are done in `d`, and the rest of `d` is still zero. */
  ghost predicate Done(d: seq<MaskValue>, m: seq<MaskValue>, n: nat) {
    n <= |d| == |m| && d[..n] == m[..n] && forall k :: n <= k < |d| ==> d[k] == Zero
  }

  lemma RowDone(before: seq<MaskValue>, after: seq<MaskValue>, rows: nat, cols: nat, f: (nat, nat) -> MaskValue, i: nat)
    requires i < rows && i * cols <= |before| && Done(before, Matrix(rows, cols, f), i * cols)
    requires |after| == |before| && i * cols + cols <= |after| && after[..i * cols] == before[..i * cols]
    requires after[i * cols..i * cols + cols] == seq(cols, j requires 0 <= j => f(i, j))
    requires forall k :: i * cols + cols <= k < |after| ==> after[k] == Zero
    ensures Done(after, Matrix(rows, cols, f), (i + 1) * cols)
  {
    var m, n := Matrix(rows, cols, f), (i + 1) * cols;
    assert n == i * cols + cols;
    forall k: nat | k < n
      ensures after[k] == m[k]
    {
      if k < i * cols {
        assert after[k] == after[..i * cols][k] == before[..i * cols][k] == m[..i * cols][k];
      } else {
        MatrixAt(rows, cols, f, i, k - i * cols);
        assert after[k] == after[i * cols..i * cols + cols][k - i * cols];
      }
    }
  }

  /** Rows below i of the matrix are filled in `d`. */
  ghost predicate RowsDone(d: seq<MaskValue>, rows: nat, cols: nat, f: (nat, nat) -> MaskValue, i: nat) {
    Done(d, Matrix(rows, cols, f), i * cols)
  }

  lemma NoRows(d: seq<MaskValue>, rows: nat, cols: nat, f: (nat, nat) -> MaskValue)
    requires |d| == rows * cols && forall k :: 0 <= k < |d| ==> d[k] == Zero
    ensures RowsDone(d, rows, cols, f, 0)
  {
  }

  /** Where row i starts, with nothing filled from there on. */
  lemma RowAt(d: seq<MaskValue>, rows: nat, cols: nat, f: (nat, nat) -> MaskValue, i: nat, base: nat)
    requires i < rows && RowsDone(d, rows, cols, f, i) && base == i * cols
    ensures base + cols <= |d| && forall k :: base <= k < |d| ==> d[k] == Zero
  {
    hide Matrix;
    MatrixSize(rows, cols, f, i);
  }

  lemma NextRow(before: seq<MaskValue>, after: seq<MaskValue>, rows: nat, cols: nat, f: (nat, nat) -> MaskValue,
                i: nat, base: nat)
    requires i < rows && RowsDone(before, rows, cols, f, i) && base == i * cols && base + cols <= |before| == |after|
    requires after[..base] == before[..base]
    requires after[base..base + cols] == seq(cols, j requires 0 <= j => f(i, j))
    requires forall k :: base + cols <= k < |after| ==> after[k] == Zero
    ensures RowsDone(after, rows, cols, f, i + 1)
  {
    hide Matrix, Done;
    RowDone(before, after, rows, cols, f, i);
  }

  lemma AllRows(d: seq<MaskValue>, rows: nat, cols: nat, f: (nat, nat) -> MaskValue)
    requires RowsDone(d, rows, cols, f, rows)
    ensures d == Matrix(rows, cols, f)
  {
    hide Matrix;
    MatrixSize(rows, cols, f, rows);
  }

  lemma MatrixSize(rows: nat, cols: nat, f: (nat, nat) -> MaskValue, i: nat)
    requires i <= rows
    ensures |Matrix(rows, cols, f)| == rows * cols && i * cols <= rows * cols
    ensures i < rows ==> i * cols + cols <= rows * cols
  {
    MulMono(i, rows, cols);
    if i < rows {
      MulMono(i + 1, rows, cols);
      assert (i + 1) * cols == i * cols + cols;
    }
  }

  method CausalMask(rows: nat, cols: nat, offset: nat) returns (d: array<MaskValue>)
    ensures fresh(d) && d[..] == Matrix(rows, cols, (i: nat, j: nat) => CausalAt(offset, i, j))
  {
    ghost var f := (i: nat, j: nat) => CausalAt(offset, i, j);
    d := new MaskValue[rows * cols](_ => Zero);
    hide *;
    NoRows(d[..], rows, cols, f);
    for i := 0 to rows
      invariant RowsDone(d[..], rows, cols, f, i)
    {
      ghost var before := d[..];
      var base := i * cols;
      RowAt(before, rows, cols, f, i, base);
      FillRow(d, base, cols, 0, offset + i);
      FilledCausal(offset, i, cols);
      NextRow(before, d[..], rows, cols, f, i, base);
    }
    AllRows(d[..], rows, cols, f);
  }

  lemma FilledCausal(offset: nat, i: nat, cols: nat)
    ensures var f := (i: nat, j: nat) => CausalAt(offset, i, j);
      seq(cols, j => Outside(j, 0, offset + i)) == seq(cols, j requires 0 <= j => f(i, j))
  {
  }

  method SlidingMask(rows: nat, cols: nat, window: nat, offset: nat) returns (d: array<MaskValue>)
    ensures fresh(d) && d[..] == Matrix(rows, cols, (i: nat, j: nat) => SlidingAt(window, offset, i, j))
  {
    ghost var f := (i: nat, j: nat) => SlidingAt(window, offset, i, j);
    d := new MaskValue[rows * cols](_ => Zero);
    hide *;
    NoRows(d[..], rows, cols, f);
    for i := 0 to rows
      invariant RowsDone(d[..], rows, cols, f, i)
    {
      ghost var before := d[..];
      var base := i * cols;
      RowAt(before, rows, cols, f, i, base);
      var queryPos := offset + i;
      var minKey := SatSub(queryPos + 1, window);
      FillRow(d, base, cols, minKey, queryPos);
      FilledSliding(window, offset, i, cols);
      NextRow(before, d[..], rows, cols, f, i, base);
    }
    AllRows(d[..], rows, cols, f);
  }

  lemma FilledSliding(window: nat, offset: nat, i: nat, cols: nat)
    ensures var f := (i: nat, j: nat) => SlidingAt(window, offset, i, j);
      seq(cols, j => Outside(j, SatSub(offset + i + 1, window), offset + i)) == seq(cols, j requires 0 <= j => f(i, j))
  {
  }

  // ---------------------------------------------------------------------
  // What a row admits
  // ---------------------------------------------------------------------

  /** Row i of the sum of both masks, as the sliding attention layer adds it. */
  function Row(cols: nat, window: nat, offset: nat, i: nat): seq<MaskValue> {
    seq(cols, j requires 0 <= j => Add(CausalAt(offset, i, j), SlidingAt(window, offset, i, j)))
  }

  /** Causal plus sliding is sliding alone, and admits exactly the last `window` positions up to the query. */
  lemma RowAdmits(cols: nat, window: nat, offset: nat, i: nat)
    ensures forall j :: 0 <= j < cols ==>
      && Row(cols, window, offset, i)[j] == SlidingAt(window, offset, i, j)
      && (Row(cols, window, offset, i)[j].Zero? <==> SatSub(offset + i + 1, window) <= j <= offset + i)
  {
  }

  /** The keys that a mask row leaves in the softmax. */
  function Select<T>(keys: seq<T>, row: seq<MaskValue>): seq<T>
    requires |row| == |keys|
  {
    if keys == [] then []
    else Select(Front(keys), Front(row)) + if Last(row).Zero? then [Last(keys)] else []
  }

  lemma {:induction false} SelectInterval<T>(keys: seq<T>, row: seq<MaskValue>, lo: nat, hi: nat)
    requires |row| == |keys| && lo <= hi <= |keys|
    requires forall j :: 0 <= j < |row| ==> (row[j].Zero? <==> lo <= j < hi)
    ensures Select(keys, row) == keys[lo..hi]
  {
    if keys != [] {
      var n := |keys| - 1;
      var lo', hi' := if lo <= n then lo else n, if hi <= n then hi else n;
      SelectInterval(Front(keys), Front(row), lo', hi');
      assert Front(keys)[lo'..hi'] == keys[lo'..hi'];
      assert row[n].Zero? ==> keys[lo..hi] == keys[lo'..hi'] + [keys[n]];
    }
  }

  /** The keys admitted from a window of keys by row i at the given offset. */
  function Attend<T>(keys: seq<T>, window: nat, offset: nat, i: nat): seq<T> {
    Select(keys, Row(|keys|, window, offset, i))
  }

  lemma AttendInterval<T>(keys: seq<T>, window: nat, offset: nat, i: nat)
    ensures var p := offset + i;
      var lo, hi := Min(SatSub(p + 1, window), |keys|), Min(p + 1, |keys|);
      lo <= hi && Attend(keys, window, offset, i) == keys[lo..hi]
  {
    var p := offset + i;
    RowAdmits(|keys|, window, offset, i);
    SelectInterval(keys, Row(|keys|, window, offset, i), Min(SatSub(p + 1, window), |keys|), Min(p + 1, |keys|));
  }

  // ---------------------------------------------------------------------
  // Cache and masks against attention over the whole history
  // ---------------------------------------------------------------------

  /** Sliding attention over the whole history: the last `window` positions up to p. */
  function FullAttention<T>(hist: seq<T>, window: nat, p: nat): seq<T>
    requires p < |hist|
  {
    hist[SatSub(p + 1, window)..p + 1]
  }

  /** What a sliding cache of positive capacity shows of a nonempty history. */
  lemma ShownKeys<T>(c: Cache<T>, h: Kv<T>)
    requires Represents(c, h) && c.isSliding && !IsFirst(c) && |h.k| > 0 && c.capacity > 0
    ensures Valid(c) && ReadWindow(c).Some? && ReadWindow(c).value.k == LastN(h.k, Min(|h.k|, c.capacity))
  {
    hide RingHolds, RingRead, LastN;
    WindowIsTail(c, h);
  }

  /** While nothing is evicted and the offset is the number of tokens cached before, every
      row attends to exactly the keys it should. */
  lemma NoEvictionExact<T>(c: Cache<T>, h: Kv<T>, window: nat, offset: nat, i: nat)
    requires Represents(c, h) && c.isSliding && !IsFirst(c) && |h.k| <= c.capacity
    requires offset + i < |h.k|
    ensures ReadWindow(c).Some?
    ensures Attend(ReadWindow(c).value.k, window, offset, i) == FullAttention(h.k, window, offset + i)
  {
    ShownKeys(c, h);
    assert LastN(h.k, |h.k|) == h.k;
    AttendInterval(h.k, window, offset, i);
    hide ReadWindow, Represents, Attend, Valid;
  }

  lemma RebasedKeys<T>(hist: seq<T>, cap: nat)
    requires |hist| > 0 && cap > 0
    ensures var keys := LastN(hist, Min(|hist|, cap));
      var start := |hist| - |keys|;
      start <= |hist| - 1 && Attend(keys, cap, |hist| - 1 - start, 0) == FullAttention(hist, cap, |hist| - 1)
  {
    var keys := LastN(hist, Min(|hist|, cap));
    AttendInterval(keys, cap, |keys| - 1, 0);
    assert keys[0..|keys|] == keys;
  }

  /** One-token steps with the offset rebased by the start of the window are exact, evicted or
      not: the ring of `window` slots still has every key that the query needs. */
  lemma RebasedStepExact<T>(c: Cache<T>, h: Kv<T>)
    requires Represents(c, h) && c.isSliding && !IsFirst(c) && |h.k| > 0 && c.capacity > 0
    ensures ReadWindow(c).Some? && |ReadWindow(c).value.k| <= |h.k|
    ensures var keys, p := ReadWindow(c).value.k, |h.k| - 1;
      var start := |h.k| - |keys|;
      start <= p && Attend(keys, c.capacity, p - start, 0) == FullAttention(h.k, c.capacity, p)
  {
    ShownKeys(c, h);
    RebasedKeys(h.k, c.capacity);
    assert |LastN(h.k, Min(|h.k|, c.capacity))| <= |h.k|;
    hide ReadWindow, Represents, Attend, Valid, LastN, FullAttention;
  }

  lemma RebasedRow<T>(hist: seq<T>, cap: nat, p: nat)
    requires cap > 0 && |hist| - Min(|hist|, cap) <= p < |hist|
    ensures var keys := LastN(hist, Min(|hist|, cap));
      var start := |hist| - |keys|;
      Attend(keys, cap, p - start, 0) == FullAttention(hist, cap, p) <==> |hist| <= cap || p == |hist| - 1
  {
    var keys := LastN(hist, Min(|hist|, cap));
    var start := |hist| - |keys|;
    AttendInterval(keys, cap, p - start, 0);
    hide Attend;
    var full := FullAttention(hist, cap, p);
    assert keys[0..p - start + 1] == hist[start..p + 1];
    assert |hist[start..p + 1]| == p + 1 - start && |full| == p + 1 - SatSub(p + 1, cap);
  }

  /** For appends of any length with the rebased offset: the row of a position still in the window
      is exact if and only if nothing has been evicted or it is the newest position. The keys of
      the rows before it have been evicted by the tokens appended with them. */
  lemma RebasedRowExactIff<T>(c: Cache<T>, h: Kv<T>, p: nat)
    requires Represents(c, h) && c.isSliding && !IsFirst(c) && c.capacity > 0 && p < |h.k|
    ensures ReadWindow(c).Some? && |ReadWindow(c).value.k| <= |h.k|
    ensures var keys := ReadWindow(c).value.k;
      var start := |h.k| - |keys|;
      start <= p ==>
        (Attend(keys, c.capacity, p - start, 0) == FullAttention(h.k, c.capacity, p)
         <==> |h.k| <= c.capacity || p == |h.k| - 1)
  {
    hide *;
    ShownKeys(c, h);
    ShownSize(h.k, c.capacity);
    if |h.k| - Min(|h.k|, c.capacity) <= p {
      RebasedRow(h.k, c.capacity, p);
    }
  }

  lemma ShownSize<T>(hist: seq<T>, capacity: nat)
    ensures Min(|hist|, capacity) <= |hist| && |LastN(hist, Min(|hist|, capacity))| == Min(|hist|, capacity)
  {
  }

  lemma AbsoluteKeys<T>(hist: seq<T>, cap: nat)
    requires |hist| > 0 && cap > 0
    ensures var keys := LastN(hist, Min(|hist|, cap));
      Attend(keys, cap, |hist| - 1, 0) == FullAttention(hist, cap, |hist| - 1) <==> |hist| <= cap
  {
    var keys, p := LastN(hist, Min(|hist|, cap)), |hist| - 1;
    AttendInterval(keys, cap, p, 0);
    if |hist| <= cap {
      assert keys == hist;
    } else {
      assert |Attend(keys, cap, p, 0)| < cap == |FullAttention(hist, cap, p)|;
    }
  }

  /** With the absolute position as offset, as the decoder passes it, a one-token step is
      exact if and only if nothing has been evicted yet. */
  lemma AbsoluteOffsetExactIff<T>(c: Cache<T>, h: Kv<T>)
    requires Represents(c, h) && c.isSliding && !IsFirst(c) && |h.k| > 0 && c.capacity > 0
    ensures ReadWindow(c).Some?
    ensures var keys, p := ReadWindow(c).value.k, |h.k| - 1;
      Attend(keys, c.capacity, p, 0) == FullAttention(h.k, c.capacity, p) <==> |h.k| <= c.capacity
  {
    ShownKeys(c, h);
    AbsoluteKeys(h.k, c.capacity);
    hide ReadWindow, Represents, Attend, Valid, LastN, FullAttention;
  }

  /** Two one-token steps on a window of one. */
  lemma TwoSteps(x: Kv<int>, y: Kv<int>, filler: int) returns (c: Cache<int>)
    requires x.Paired() && y.Paired() && |x.k| == |y.k| == 1
    ensures Represents(c, Extend(x, y)) && c.isSliding && !IsFirst(c) && c.capacity == 1
  {
    hide RingHolds, RingWrite, Overwrite, LastN;
    var c0 := New<int>(1, true);
    FirstRepresents(c0, x, filler);
    FirstKind(c0, x, filler);
    var c1 := KvCache.Append(c0, x, filler);
    AppendRepresents(c1, x, y, filler);
    c := KvCache.Append(c1, y, filler);
  }

  /** With the absolute offset, the second of two steps on a window of one attends to nothing
      instead of itself. */
  lemma EvictedStepSeesNothing(filler: int) returns (c: Cache<int>)
    ensures Represents(c, Kv([7, 8], [7, 8])) && c.isSliding && !IsFirst(c) && c.capacity == 1 && ReadWindow(c).Some?
    ensures ReadWindow(c).value.k == [8] && Attend(ReadWindow(c).value.k, 1, 1, 0) == []
    ensures FullAttention([7, 8], 1, 1) == [8]
  {
    c := TwoSteps(Kv([7], [7]), Kv([8], [8]), filler);
    hide Represents, ReadWindow, Valid, Attend;
    assert [7] + [8] == [7, 8];
    ShownKeys(c, Kv([7, 8], [7, 8]));
    assert LastN([7, 8], 1) == [8];
    AttendInterval([8], 1, 1, 0);
  }

  lemma PassKeys<T>(hist: seq<T>, cap: nat)
    requires |hist| > 0 && cap > 0
    ensures var keys := LastN(hist, Min(|hist|, cap));
      (forall i: nat :: i < |hist| ==> Attend(keys, cap, 0, i) == FullAttention(hist, cap, i)) <==> |hist| <= cap
  {
    var keys, last := LastN(hist, Min(|hist|, cap)), |hist| - 1;
    if |hist| <= cap {
      assert keys == hist;
      forall i: nat | i < |hist|
        ensures Attend(keys, cap, 0, i) == FullAttention(hist, cap, i)
      {
        AttendInterval(keys, cap, 0, i);
      }
    } else {
      AttendInterval(keys, cap, 0, last);
      assert |Attend(keys, cap, 0, last)| < cap == |FullAttention(hist, cap, last)|;
    }
  }

  /** A single pass over n tokens from an empty cache (offset 0) is exact for every row if and
      only if the n tokens fit the window: a trimmed first append misaligns the masks. */
  lemma SinglePassExactIff<T>(capacity: nat, x: Kv<T>, filler: T)
    requires capacity > 0 && x.Paired() && |x.k| > 0
    ensures Valid(New<T>(capacity, true)) && CanAppend(New<T>(capacity, true), |x.k|)
    ensures var c := KvCache.Append(New(capacity, true), x, filler);
      && Valid(c) && ReadWindow(c).Some?
      && ((forall i: nat :: i < |x.k| ==>
            Attend(ReadWindow(c).value.k, capacity, 0, i) == FullAttention(x.k, capacity, i))
          <==> |x.k| <= capacity)
  {
    var c0 := New<T>(capacity, true);
    FirstRepresents(c0, x, filler);
    FirstKind(c0, x, filler);
    hide KvCache.Append, Valid, ReadWindow, Attend, LastN, FullAttention, Represents;
    var c := KvCache.Append(c0, x, filler);
    ShownKeys(c, x);
    PassKeys(x.k, capacity);
  }

  /** Row i of the causal mask alone, as the full attention layer adds it. */
  function CausalRow(cols: nat, offset: nat, i: nat): seq<MaskValue> {
    seq(cols, j requires 0 <= j => CausalAt(offset, i, j))
  }

  /** A global layer attends to every position so far, whatever the offset was before, if the
      offset is the number of tokens cached before. */
  lemma GlobalRowExact<T>(keys: seq<T>, offset: nat, i: nat)
    requires offset + i < |keys|
    ensures Select(keys, CausalRow(|keys|, offset, i)) == keys[..offset + i + 1]
  {
    SelectInterval(keys, CausalRow(|keys|, offset, i), 0, offset + i + 1);
  }

  /** A single pass over a global layer is exact in every row. */
  lemma GlobalPassExact<T>(capacity: nat, x: Kv<T>, filler: T)
    requires x.Paired()
    ensures Valid(New<T>(capacity, false)) && CanAppend(New<T>(capacity, false), |x.k|)
    ensures var c := KvCache.Append(New(capacity, false), x, filler);
      && Valid(c) && ReadWindow(c).Some? && ReadWindow(c).value.k == x.k
      && forall i: nat :: i < |x.k| ==> Select(ReadWindow(c).value.k, CausalRow(|x.k|, 0, i)) == x.k[..i + 1]
  {
    forall i: nat | i < |x.k|
      ensures Select(x.k, CausalRow(|x.k|, 0, i)) == x.k[..i + 1]
    {
      GlobalRowExact(x.k, 0, i);
    }
  }

  lemma FirstKind<T>(c: Cache<T>, x: Kv<T>, filler: T)
    requires Valid(c) && x.Paired() && CanAppend(c, |x.k|) && IsFirst(c) && c.isSliding
    ensures var a := KvCache.Append(c, x, filler); a.isSliding && !IsFirst(a) && a.capacity == c.capacity
  {
  }
}
