// Contiguous strides of a C-order tensor (layout_compiler.rs).
module Strides {
  import opened Common

  function Product(shape: seq<nat>): nat {
    if shape == [] then 1 else shape[0] * Product(shape[1..])
  }

  function NumBytes(shape: seq<nat>, elementBytes: nat): nat {
    Product(shape) * elementBytes
  }

  /** Stride i is the byte size of everything to the right of dimension i. */
  function Contiguous(shape: seq<nat>, elementBytes: nat): (r: seq<nat>)
    ensures |r| == |shape|
  {
    if shape == [] then [] else [NumBytes(shape[1..], elementBytes)] + Contiguous(shape[1..], elementBytes)
  }

  /** The source's loop: strides from the last dimension to the first, then reversed. */
  method ComputeContiguousStrides(shape: seq<nat>, elementBytes: nat) returns (strides: seq<nat>)
    ensures strides == Contiguous(shape, elementBytes)
  {
    strides := [];
    if shape == [] {
      return;
    }
    var stride := elementBytes;
    var n := |shape|;
    for i := 0 to n
      invariant stride == NumBytes(shape[n - i..], elementBytes)
      invariant Reversed(strides) == Contiguous(shape[n - i..], elementBytes)
    {
      ghost var tail := shape[n - i - 1..];
      assert tail[0] == shape[n - i - 1] && tail[1..] == shape[n - i..];
      NumBytesStep(tail, elementBytes);
      ReversedAppend(strides, stride);
      strides := strides + [stride];
      stride := stride * shape[n - i - 1];
    }
    assert shape[0..] == shape;
    strides := Reversed(strides);
  }

  function Reversed(s: seq<nat>): seq<nat> {
    if s == [] then [] else Reversed(s[1..]) + [s[0]]
  }

  lemma {:induction false} ReversedAppend(s: seq<nat>, x: nat)
    ensures Reversed(s + [x]) == [x] + Reversed(s)
  {
    if s == [] {
      assert [x][1..] == [];
    } else {
      ReversedAppend(s[1..], x);
      assert (s + [x])[1..] == s[1..] + [x] && (s + [x])[0] == s[0];
    }
  }

  lemma NumBytesStep(shape: seq<nat>, e: nat)
    requires shape != []
    ensures NumBytes(shape, e) == NumBytes(shape[1..], e) * shape[0]
  {
    var p := Product(shape[1..]);
    assert shape[0] * p * e == p * e * shape[0];
  }

  predicate IsContiguous(strides: seq<nat>, shape: seq<nat>, elementBytes: nat) {
    |strides| == |shape| && (shape == [] || strides == Contiguous(shape, elementBytes))
  }

  /** Contiguous strides are exactly the documented ones: the element size times the product of
      the dimensions to the right. */
  lemma {:induction false} ContiguousIff(strides: seq<nat>, shape: seq<nat>, e: nat)
    ensures IsContiguous(strides, shape, e)
       <==> |strides| == |shape| && forall i :: 0 <= i < |strides| ==> strides[i] == NumBytes(shape[i + 1..], e)
  {
    ContiguousAt(shape, e);
    var c := Contiguous(shape, e);
    if |strides| == |shape| && forall i :: 0 <= i < |strides| ==> strides[i] == NumBytes(shape[i + 1..], e) {
      assert strides == c;
    }
  }

  lemma {:induction false} ContiguousAt(shape: seq<nat>, e: nat)
    ensures forall i :: 0 <= i < |shape| ==> Contiguous(shape, e)[i] == NumBytes(shape[i + 1..], e)
  {
    if shape != [] {
      ContiguousAt(shape[1..], e);
      forall i | 0 < i < |shape|
        ensures Contiguous(shape, e)[i] == NumBytes(shape[i + 1..], e)
      {
        assert shape[1..][i..] == shape[i + 1..];
        assert Contiguous(shape[1..], e)[i - 1] == NumBytes(shape[1..][i..], e);
      }
    }
  }

  // ---------------------------------------------------------------------
  // Strides number the elements
  // ---------------------------------------------------------------------

  predicate ValidIndex(idx: seq<nat>, shape: seq<nat>) {
    |idx| == |shape| && forall i :: 0 <= i < |idx| ==> idx[i] < shape[i]
  }

  function Offset(idx: seq<nat>, strides: seq<nat>): nat
    requires |idx| == |strides|
  {
    if idx == [] then 0 else idx[0] * strides[0] + Offset(idx[1..], strides[1..])
  }

  function Unravel(offset: nat, shape: seq<nat>, e: nat): seq<nat>
    requires NumBytes(shape, e) > 0
  {
    if shape == [] then []
    else
      NumBytesStep(shape, e);
      assert NumBytes(shape[1..], e) > 0;
      [offset / NumBytes(shape[1..], e)] + Unravel(offset % NumBytes(shape[1..], e), shape[1..], e)
  }

  /** The offset of an index splits into the leading block and the offset within it. */
  lemma OffsetSplits(idx: seq<nat>, shape: seq<nat>, e: nat)
    requires shape != [] && ValidIndex(idx, shape)
    ensures ValidIndex(idx[1..], shape[1..])
    ensures Offset(idx, Contiguous(shape, e))
         == idx[0] * NumBytes(shape[1..], e) + Offset(idx[1..], Contiguous(shape[1..], e))
  {
    assert Contiguous(shape, e)[1..] == Contiguous(shape[1..], e);
  }

  /** Every valid index has an offset inside the tensor, at a multiple of the element size. */
  lemma {:induction false} OffsetInRange(idx: seq<nat>, shape: seq<nat>, e: nat)
    requires e > 0 && ValidIndex(idx, shape)
    ensures Offset(idx, Contiguous(shape, e)) + e <= NumBytes(shape, e)
    ensures Offset(idx, Contiguous(shape, e)) % e == 0
  {
    if shape == [] {
    } else {
      var s := NumBytes(shape[1..], e);
      OffsetSplits(idx, shape, e);
      OffsetInRange(idx[1..], shape[1..], e);
      NumBytesStep(shape, e);
      BlockFits(idx[0], shape[0], s);
      MultipleSum(idx[0], Product(shape[1..]), e, Offset(idx[1..], Contiguous(shape[1..], e)));
    }
  }

  lemma BlockFits(i: nat, n: nat, s: nat)
    requires i < n
    ensures i * s + s <= s * n
  {
    MulMono(i + 1, n, s);
  }

  lemma MultipleSum(i: nat, p: nat, e: nat, r: nat)
    requires e > 0 && r % e == 0
    ensures (i * (p * e) + r) % e == 0
  {
    assert i * (p * e) == (i * p) * e;
    assert i * (p * e) + r == (i * p + r / e) * e + 0;
    DivModUnique(i * (p * e) + r, e, i * p + r / e, 0);
  }

  /** Different indices have different offsets. */
  lemma {:induction false} OffsetInjective(a: seq<nat>, b: seq<nat>, shape: seq<nat>, e: nat)
    requires e > 0 && ValidIndex(a, shape) && ValidIndex(b, shape)
    requires Offset(a, Contiguous(shape, e)) == Offset(b, Contiguous(shape, e))
    ensures a == b
  {
    if shape != [] {
      var s := NumBytes(shape[1..], e);
      OffsetSplits(a, shape, e);
      OffsetSplits(b, shape, e);
      OffsetInRange(a[1..], shape[1..], e);
      OffsetInRange(b[1..], shape[1..], e);
      var ra, rb := Offset(a[1..], Contiguous(shape[1..], e)), Offset(b[1..], Contiguous(shape[1..], e));
      DivModUnique(a[0] * s + ra, s, a[0], ra);
      DivModUnique(b[0] * s + rb, s, b[0], rb);
      OffsetInjective(a[1..], b[1..], shape[1..], e);
      assert a == [a[0]] + a[1..] && b == [b[0]] + b[1..];
    }
  }

  /** Every multiple of the element size inside the tensor is the offset of some index. */
  lemma {:induction false} OffsetSurjective(offset: nat, shape: seq<nat>, e: nat)
    requires e > 0 && offset < NumBytes(shape, e) && offset % e == 0
    ensures ValidIndex(Unravel(offset, shape, e), shape)
    ensures Offset(Unravel(offset, shape, e), Contiguous(shape, e)) == offset
    decreases |shape|
  {
    hide *;
    if shape == [] {
      ScalarUnravel(offset, shape, e);
    } else {
      var s, idx := NumBytes(shape[1..], e), Unravel(offset, shape, e);
      UnravelStep(offset, shape, e);
      var q, r := offset / s, offset % s;
      RestMultiple(offset, q, r, Product(shape[1..]), e);
      OffsetSurjective(r, shape[1..], e);
      ConsValid(q, Unravel(r, shape[1..], e), shape);
      OffsetSplits(idx, shape, e);
    }
  }

  lemma ScalarUnravel(offset: nat, shape: seq<nat>, e: nat)
    requires shape == [] && offset < NumBytes(shape, e) && offset % e == 0 && e > 0
    ensures ValidIndex(Unravel(offset, shape, e), shape)
    ensures Offset(Unravel(offset, shape, e), Contiguous(shape, e)) == offset
  {
    assert NumBytes(shape, e) == e;
    DivModUnique(offset, e, 0, offset);
  }

  lemma UnravelStep(offset: nat, shape: seq<nat>, e: nat)
    requires shape != [] && e > 0 && offset < NumBytes(shape, e)
    ensures var s := NumBytes(shape[1..], e);
      && s == Product(shape[1..]) * e && s > 0
      && offset == (offset / s) * s + offset % s && offset / s < shape[0] && offset % s < s
      && Unravel(offset, shape, e) == [offset / s] + Unravel(offset % s, shape[1..], e)
  {
    var s := NumBytes(shape[1..], e);
    NumBytesStep(shape, e);
    assert s > 0;
    QuotientBelow(offset / s, offset % s, s, shape[0]);
  }

  lemma ConsValid(q: nat, idx: seq<nat>, shape: seq<nat>)
    requires shape != [] && q < shape[0] && ValidIndex(idx, shape[1..])
    ensures ValidIndex([q] + idx, shape) && ([q] + idx)[0] == q && ([q] + idx)[1..] == idx
  {
    assert ([q] + idx)[1..] == idx;
  }

  lemma QuotientBelow(q: nat, r: nat, s: nat, n: nat)
    requires q * s + r < s * n
    ensures q < n
  {
    assert q * s == s * n + (q - n) * s;
    if q >= n {
      ProductNonNegative(q - n, s);
    }
  }

  lemma ProductNonNegative(a: nat, b: nat)
    ensures a * b >= 0
  {
  }

  lemma RestMultiple(offset: nat, q: nat, r: nat, p: nat, e: nat)
    requires e > 0 && offset % e == 0 && offset == q * (p * e) + r
    ensures r % e == 0
  {
    assert q * (p * e) == (q * p) * e;
    assert r == (offset / e - q * p) * e;
    NonNegativeFactor(offset / e - q * p, e, r);
    DivModUnique(r, e, offset / e - q * p, 0);
  }

  lemma NonNegativeFactor(k: int, e: nat, r: nat)
    requires e > 0 && r == k * e
    ensures k >= 0
  {
    if k < 0 {
      assert (-k) * e >= e by { MulAtLeast(-k, e); }
    }
  }
}
