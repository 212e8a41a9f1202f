// Layout packing and its validator (layout_compiler.rs).
module Layout {
  import opened Common
  import opened Strides

  // ---------------------------------------------------------------------
  // Bit masks
  // ---------------------------------------------------------------------

  /** `x & y`, bit by bit. */
  function And(x: nat, y: nat): nat {
    if x == 0 then 0 else 2 * And(x / 2, y / 2) + if x % 2 == 1 && y % 2 == 1 then 1 else 0
  }

  /** `x & !y`, bit by bit. */
  function AndNot(x: nat, y: nat): nat {
    if x == 0 then 0 else 2 * AndNot(x / 2, y / 2) + if x % 2 == 1 && y % 2 == 0 then 1 else 0
  }

  lemma {:induction false} AndSplits(x: nat, y: nat)
    ensures AndNot(x, y) + And(x, y) == x && And(x, y) <= y
  {
    if x != 0 {
      AndSplits(x / 2, y / 2);
    }
  }

  predicate IsPow2(n: nat) {
    n == 1 || (n > 1 && n % 2 == 0 && IsPow2(n / 2))
  }

  lemma {:induction false} AndNotZero(x: nat)
    ensures AndNot(x, 0) == x
  {
    if x != 0 {
      AndNotZero(x / 2);
    }
  }

  /** Masking with a power of two minus one rounds down to a multiple. */
  lemma {:induction false} MaskRoundsDown(x: nat, a: nat)
    requires IsPow2(a)
    ensures AndNot(x, a - 1) == (x / a) * a
    decreases x
  {
    if a == 1 {
      AndNotZero(x);
      DivModUnique(x, 1, x, 0);
    } else if x == 0 {
      DivModUnique(0, a, 0, 0);
    } else {
      MaskRoundsDown(x / 2, a / 2);
      MaskStep(x, a);
      HalfDivision(x, a / 2);
    }
  }

  lemma MaskStep(x: nat, a: nat)
    requires x != 0 && a > 1 && a % 2 == 0
    ensures AndNot(x, a - 1) == 2 * AndNot(x / 2, a / 2 - 1)
  {
    assert (a - 1) / 2 == a / 2 - 1 && (a - 1) % 2 == 1;
  }

  lemma HalfDivision(x: nat, b: nat)
    requires b > 0
    ensures 2 * (((x / 2) / b) * b) == (x / (2 * b)) * (2 * b)
  {
    var q, r := (x / 2) / b, (x / 2) % b;
    assert x / 2 == q * b + r;
    assert 2 * (q * b) == q * (2 * b);
    DivModUnique(x, 2 * b, q, 2 * r + x % 2);
  }

  /** `align_up`: the mask form, for any alignment. */
  function AlignUp(offset: nat, align: nat): nat {
    if align == 0 then offset else AndNot(offset + (align - 1), align - 1)
  }

  /** Whatever the alignment, aligning never moves an offset down. */
  lemma {:induction false} AlignUpNotBelow(offset: nat, align: nat)
    ensures AlignUp(offset, align) >= offset
  {
    if align != 0 {
      AndSplits(offset + (align - 1), align - 1);
    }
  }

  /** For a power of two the result is the least multiple that is not below the offset. */
  lemma {:induction false} AlignUpIsLeast(offset: nat, align: nat)
    requires IsPow2(align)
    ensures AlignUp(offset, align) % align == 0 && offset <= AlignUp(offset, align) < offset + align
    ensures forall m: nat :: m % align == 0 && m >= offset ==> m >= AlignUp(offset, align)
  {
    hide *;
    AlignUpMasks(offset, align);
    var x := offset + (align - 1);
    var q, r := x / align, x % align;
    MaskRoundsDown(x, align);
    QuotientParts(x, align);
    DivModUnique(q * align, align, q, 0);
    forall m: nat | m % align == 0 && m >= offset
      ensures m >= q * align
    {
      QuotientParts(m, align);
      MultipleAbove(m / align, align, q, r);
    }
  }

  lemma AlignUpMasks(offset: nat, align: nat)
    requires IsPow2(align)
    ensures align > 0 && AlignUp(offset, align) == AndNot(offset + (align - 1), align - 1)
  {
  }

  lemma QuotientParts(x: nat, d: nat)
    requires d > 0
    ensures x == (x / d) * d + x % d && 0 <= x % d < d
  {
  }

  lemma MultipleAbove(k: nat, align: nat, q: nat, r: nat)
    requires align > 0 && k * align + (align - 1) >= q * align + r
    ensures k * align >= q * align
  {
    assert (k + 1) * align == k * align + align;
    if k < q {
      MulMono(k + 1, q, align);
    } else {
      MulMono(q, k, align);
    }
  }

  /** `a & !(a - 1)` is the lowest set bit of a, and it is a itself only for powers of two. */
  lemma {:induction false} LowestBit(a: nat)
    requires a > 0
    ensures 0 < AndNot(a, a - 1) <= a
    ensures AndNot(a, a - 1) == a ==> IsPow2(a)
  {
    if a % 2 == 1 {
      assert (a - 1) / 2 == a / 2;
      AndNotSelf(a / 2);
    } else {
      assert (a - 1) / 2 == a / 2 - 1 && (a - 1) % 2 == 1;
      LowestBit(a / 2);
    }
  }

  lemma {:induction false} AndNotSelf(x: nat)
    ensures AndNot(x, x) == 0
  {
    if x != 0 {
      AndNotSelf(x / 2);
    }
  }

  /** The mask form gives a multiple of the alignment for every offset if and only if the
      alignment is a power of two. For any other alignment it already fails at offset 1. */
  lemma {:induction false} AlignUpMultipleIff(align: nat)
    requires align > 0
    ensures IsPow2(align) <==> forall offset: nat :: AlignUp(offset, align) % align == 0
    ensures IsPow2(align) <==> AlignUp(1, align) % align == 0
  {
    if IsPow2(align) {
      forall offset: nat
        ensures AlignUp(offset, align) % align == 0
      {
        AlignUpIsLeast(offset, align);
      }
    } else {
      var low := AndNot(align, align - 1);
      LowestBit(align);
      assert AlignUp(1, align) == low;
      DivModUnique(low, align, 0, low);
    }
  }

  /** Aligning 4 to 6 gives 8. */
  lemma AlignUpNotMultiple()
    ensures !IsPow2(6) && AlignUp(4, 6) == 8 && AlignUp(4, 6) % 6 != 0
  {
    assert AndNot(9, 5) == 2 * AndNot(4, 2) && AndNot(4, 2) == 2 * AndNot(2, 1) && AndNot(2, 1) == 2 * AndNot(1, 0);
    assert AndNot(1, 0) == 2 * AndNot(0, 0) + 1;
  }

  /** Aligning a multiple of a power of two, to whatever alignment, gives a multiple of it:
      the mask leaves no bit below. */
  lemma {:induction false} MaskKeepsMultiple(x: nat, mask: nat, p: nat)
    requires IsPow2(p) && x % p == 0
    ensures AndNot(x + mask, mask) % p == 0
    decreases p
  {
    if p > 1 {
      HalveMultiple(x, p / 2);
      assert (x + mask) / 2 == x / 2 + mask / 2 && (x + mask) % 2 == mask % 2;
      MaskKeepsMultiple(x / 2, mask / 2, p / 2);
      DoubleMultiple(AndNot(x / 2 + mask / 2, mask / 2), p / 2);
      assert x + mask == 0 || AndNot(x + mask, mask) == 2 * AndNot(x / 2 + mask / 2, mask / 2);
      DivModUnique(0, p, 0, 0);
    }
  }

  lemma HalveMultiple(x: nat, h: nat)
    requires h > 0 && x % (2 * h) == 0
    ensures x % 2 == 0 && x / 2 % h == 0
  {
    var k := x / (2 * h);
    assert x == k * (2 * h) + 0;
    assert x == 2 * (k * h);
    DivModUnique(x / 2, h, k, 0);
  }

  lemma DoubleMultiple(x: nat, h: nat)
    requires h > 0 && x % h == 0
    ensures 2 * x % (2 * h) == 0
  {
    var k := x / h;
    assert x == k * h + 0;
    assert 2 * x == k * (2 * h) + 0;
    DivModUnique(2 * x, 2 * h, k, 0);
  }

  lemma AlignUpKeepsPages(offset: nat, align: nat)
    requires offset % PAGE == 0
    ensures AlignUp(offset, align) % PAGE == 0
  {
    if align > 0 {
      PageIsPow2();
      MaskKeepsMultiple(offset, align - 1, PAGE);
    }
  }

  // ---------------------------------------------------------------------
  // Reports
  // ---------------------------------------------------------------------

  datatype Dtype = Float32 | Float16 | Int8 | Int32 | Int64 | Unknown

  /** Bytes per element; the natural alignment is the same number. */
  function ElementBytes(d: Dtype): (n: nat)
    ensures n > 0
  {
    match d
    case Float32 => 4
    case Float16 => 2
    case Int8 => 1
    case Int32 => 4
    case Int64 => 8
    case Unknown => 4
  }

  /** `dtype_info`: what is not known counts as four bytes. */
  function DtypeOf(name: string): Dtype {
    if name == "float32" || name == "float" then Float32
    else if name == "bfloat16" || name == "float16" || name == "half" then Float16
    else if name == "int8" || name == "uint8" || name == "int4" || name == "uint4" then Int8
    else if name == "int32" || name == "uint32" then Int32
    else if name == "int64" || name == "uint64" then Int64
    else Unknown
  }

  /** The bits that a type has by its name. */
  const NAMED_BITS := [("float32", 32), ("bfloat16", 16), ("float16", 16), ("int8", 8), ("uint8", 8), ("int4", 4),
                       ("uint4", 4), ("int32", 32), ("uint32", 32), ("int64", 64), ("uint64", 64)]

  /** An element takes the bits of its type's name, except that four bits take a whole byte. */
  lemma NamedWidths(k: nat)
    requires k < |NAMED_BITS|
    ensures var (name, bits) := NAMED_BITS[k];
      8 * ElementBytes(DtypeOf(name)) == bits <==> bits != 4
    ensures NAMED_BITS[k].1 == 4 ==> ElementBytes(DtypeOf(NAMED_BITS[k].0)) == 1
  {
  }

  datatype LayoutTensor = LayoutTensor(
    name: string, shape: seq<nat>, dtype: Dtype, isWeight: bool, ioSurface: bool, alignment: nat)
  {
    function Size(): nat {
      NumBytes(shape, ElementBytes(dtype))
    }

    /** The requested alignment, or the natural one when it is 0. */
    function Align(): (a: nat)
      ensures a > 0
    {
      if alignment > 0 then alignment else ElementBytes(dtype)
    }
  }

  datatype Violation = NotPageAligned | Misaligned | NonContiguous | Overlapping

  datatype Report = Report(
    tensor: LayoutTensor, byteOffset: nat, alignedOffset: nat, padBytes: nat, segmentIndex: nat, size: nat,
    strides: seq<nat>, contiguous: bool, zeroCopy: bool, violation: Option<Violation>)

  const PAGE: nat := 4096

  /** The zero-copy conditions in the order in which they are checked. */
  function CheckZeroCopy(byteOffset: nat, t: LayoutTensor, contiguous: bool, segmentEnd: nat, segmentCap: nat)
    : Option<Violation>
  {
    if t.ioSurface && byteOffset % PAGE != 0 then Some(NotPageAligned)
    else if byteOffset % t.Align() != 0 then Some(Misaligned)
    else if !contiguous then Some(NonContiguous)
    else if segmentEnd > byteOffset && segmentCap > 0 then Some(Overlapping)
    else None
  }

  function WeightReport(t: LayoutTensor, offset: nat): Report {
    var e := ElementBytes(t.dtype);
    var strides := Contiguous(t.shape, e);
    var contiguous := IsContiguous(strides, t.shape, e);
    var aligned := AlignUp(offset, t.Align());
    Report(t, offset, aligned, SatSub(aligned, offset), 1, t.Size(), strides, contiguous,
           offset % PAGE == 0 && contiguous,
           CheckZeroCopy(offset, t, contiguous, 0, offset + t.Size()))
  }

  function ActivationReport(t: LayoutTensor, segmentEnd: nat): Report {
    var e := ElementBytes(t.dtype);
    var offset := AlignUp(segmentEnd, t.Align());
    var strides := Contiguous(t.shape, e);
    var contiguous := IsContiguous(strides, t.shape, e);
    var aligned := if t.ioSurface then AlignUp(offset, PAGE) else offset;
    Report(t, offset, aligned, SatSub(aligned, offset), 0, t.Size(), strides, contiguous,
           offset % PAGE == 0 && contiguous && t.ioSurface,
           CheckZeroCopy(offset, t, contiguous, offset + t.Size(), 0))
  }

  /** Where the weights and the activations of a list end. */
  function WeightEnd(ts: seq<LayoutTensor>): nat {
    if ts == [] then 0 else WeightEnd(Front(ts)) + Last(ts).Size()
  }

  function ActivationEnd(ts: seq<LayoutTensor>): nat {
    if ts == [] then 0 else AlignUp(ActivationEnd(Front(ts)), Last(ts).Align()) + Last(ts).Size()
  }

  /** Weights one after another, without gaps. */
  method PackWeights(ts: seq<LayoutTensor>) returns (reports: seq<Report>)
    ensures |reports| == |ts| && forall k :: 0 <= k < |ts| ==> reports[k] == WeightReport(ts[k], WeightEnd(ts[..k]))
  {
    hide *;
    reports := [];
    var weightOffset := 0;
    NoWeights(ts);
    for i := 0 to |ts|
      invariant |reports| == i && weightOffset == WeightEnd(ts[..i])
      invariant forall k :: 0 <= k < i ==> reports[k] == WeightReport(ts[k], WeightEnd(ts[..k]))
    {
      WeightStep(ts, i);
      reports := reports + [WeightReport(ts[i], weightOffset)];
      weightOffset := weightOffset + ts[i].Size();
    }
  }

  lemma NoWeights(ts: seq<LayoutTensor>)
    ensures WeightEnd(ts[..0]) == 0
  {
  }

  lemma WeightStep(ts: seq<LayoutTensor>, i: nat)
    requires i < |ts|
    ensures WeightEnd(ts[..i + 1]) == WeightEnd(ts[..i]) + ts[i].Size()
  {
    assert Front(ts[..i + 1]) == ts[..i] && Last(ts[..i + 1]) == ts[i];
  }

  /** Activations, each aligned up from the end of the one before. */
  method PackActivations(ts: seq<LayoutTensor>) returns (reports: seq<Report>)
    ensures |reports| == |ts|
    ensures forall k :: 0 <= k < |ts| ==> reports[k] == ActivationReport(ts[k], ActivationEnd(ts[..k]))
  {
    hide *;
    reports := [];
    var activationOffset := 0;
    NoActivations(ts);
    for i := 0 to |ts|
      invariant |reports| == i && activationOffset == ActivationEnd(ts[..i])
      invariant forall k :: 0 <= k < i ==> reports[k] == ActivationReport(ts[k], ActivationEnd(ts[..k]))
    {
      ActivationStep(ts, i);
      var report := ActivationReport(ts[i], activationOffset);
      reports := reports + [report];
      activationOffset := report.byteOffset + ts[i].Size();
    }
  }

  lemma NoActivations(ts: seq<LayoutTensor>)
    ensures ActivationEnd(ts[..0]) == 0
  {
  }

  lemma ActivationStep(ts: seq<LayoutTensor>, i: nat)
    requires i < |ts|
    ensures ActivationEnd(ts[..i + 1]) == ActivationReport(ts[i], ActivationEnd(ts[..i])).byteOffset + ts[i].Size()
  {
    assert Front(ts[..i + 1]) == ts[..i] && Last(ts[..i + 1]) == ts[i];
  }

  /** Reports in list order: `weights` and `activations` as the caller has sorted them. */
  method CompileLayouts(weights: seq<LayoutTensor>, activations: seq<LayoutTensor>) returns (reports: seq<Report>)
    ensures |reports| == |weights| + |activations|
    ensures forall k :: 0 <= k < |weights| ==> reports[k] == WeightReport(weights[k], WeightEnd(weights[..k]))
    ensures forall k :: 0 <= k < |activations| ==>
      reports[|weights| + k] == ActivationReport(activations[k], ActivationEnd(activations[..k]))
  {
    hide *;
    var first := PackWeights(weights);
    var second := PackActivations(activations);
    reports := first + second;
  }

  // ---------------------------------------------------------------------
  // Packing
  // ---------------------------------------------------------------------

  /** Tensor k ends before tensor m starts and before the segment ends, for any alignments. */
  lemma {:induction false} ActivationsOrdered(ts: seq<LayoutTensor>, k: nat, m: nat)
    requires k < m <= |ts|
    ensures ActivationEnd(ts[..k + 1]) <= ActivationEnd(ts[..m])
    ensures m < |ts| ==> ActivationEnd(ts[..m]) <= ActivationReport(ts[m], ActivationEnd(ts[..m])).byteOffset
    ensures ActivationReport(ts[k], ActivationEnd(ts[..k])).byteOffset + ts[k].Size() == ActivationEnd(ts[..k + 1])
    decreases m
  {
    assert Front(ts[..k + 1]) == ts[..k] && Last(ts[..k + 1]) == ts[k];
    if k + 1 < m {
      ActivationsOrdered(ts, k, m - 1);
      assert Front(ts[..m]) == ts[..m - 1] && Last(ts[..m]) == ts[m - 1];
      AlignUpNotBelow(ActivationEnd(ts[..m - 1]), ts[m - 1].Align());
    }
    if m < |ts| {
      AlignUpNotBelow(ActivationEnd(ts[..m]), ts[m].Align());
    }
  }

  /** The byte ranges of two reports of one segment do not meet. */
  predicate Apart(a: Report, b: Report) {
    a.byteOffset + a.size <= b.byteOffset || b.byteOffset + b.size <= a.byteOffset
  }

  /** Activations never overlap, whatever the alignments, and stay within the segment. */
  lemma {:induction false} ActivationsDisjoint(ts: seq<LayoutTensor>, k: nat, m: nat)
    requires k < m < |ts|
    ensures var a, b := ActivationReport(ts[k], ActivationEnd(ts[..k])), ActivationReport(ts[m], ActivationEnd(ts[..m]));
      a.byteOffset + a.size <= b.byteOffset && Apart(a, b) && b.byteOffset + b.size <= ActivationEnd(ts)
  {
    ActivationsOrdered(ts, k, m);
    ActivationsOrdered(ts, m, |ts|);
    assert ts[..|ts|] == ts;
  }

  /** Weights are packed without gaps, from 0 to the end of the segment. */
  lemma {:induction false} WeightsDense(ts: seq<LayoutTensor>, k: nat, m: nat)
    requires k < m <= |ts|
    ensures var a := WeightReport(ts[k], WeightEnd(ts[..k]));
      a.byteOffset + a.size == WeightEnd(ts[..k + 1]) <= WeightEnd(ts[..m]) <= WeightEnd(ts)
    decreases |ts| - m, m
  {
    assert Front(ts[..k + 1]) == ts[..k] && Last(ts[..k + 1]) == ts[k];
    if m < |ts| {
      WeightsDense(ts, k, m + 1);
      assert Front(ts[..m + 1]) == ts[..m];
    } else {
      assert ts[..m] == ts;
    }
    WeightEndGrows(ts, k + 1, m);
  }

  lemma {:induction false} WeightEndGrows(ts: seq<LayoutTensor>, k: nat, m: nat)
    requires k <= m <= |ts|
    ensures WeightEnd(ts[..k]) <= WeightEnd(ts[..m])
    decreases m
  {
    if k < m {
      WeightEndGrows(ts, k, m - 1);
      assert Front(ts[..m]) == ts[..m - 1];
    }
  }

  /** The overlap complaint never fires: weights are checked against an end of 0 and
      activations with a cap of 0. */
  lemma OverlapNeverFires(t: LayoutTensor, offset: nat)
    ensures WeightReport(t, offset).violation != Some(Overlapping)
    ensures ActivationReport(t, offset).violation != Some(Overlapping)
  {
  }

  /** What is wrong with a placement, if anything. */
  predicate ZeroCopyIff(r: Report) {
    var t := r.tensor;
    var align := if t.alignment == 0 then ElementBytes(t.dtype) else t.alignment;
    && (r.violation == None <==> r.byteOffset % align == 0 && (t.ioSurface ==> r.byteOffset % PAGE == 0))
    && (r.violation == Some(NotPageAligned) <==> r.tensor.ioSurface && r.byteOffset % PAGE != 0)
    && r.violation != Some(NonContiguous) && r.violation != Some(Overlapping)
  }

  /** What the reports say: a placement violates the zero-copy conditions exactly when its offset
      misses its alignment or, for an I/O surface, the page; it counts as eligible exactly when its
      offset is on a page and, for an activation, it is an I/O surface; and the padding leads
      from the offset to an aligned one. */
  lemma {:induction false} ReportsSay(t: LayoutTensor, offset: nat)
    ensures var w, a := WeightReport(t, offset), ActivationReport(t, offset);
      && ZeroCopyIff(w) && ZeroCopyIff(a) && w.contiguous && a.contiguous
      && (w.zeroCopy <==> offset % PAGE == 0)
      && (a.zeroCopy <==> t.ioSurface && a.byteOffset % PAGE == 0)
      && w.byteOffset == offset <= a.byteOffset && w.segmentIndex != a.segmentIndex && w.tensor == a.tensor == t
      && w.size == a.size == NumBytes(t.shape, ElementBytes(t.dtype))
      && IsContiguous(w.strides, t.shape, ElementBytes(t.dtype)) && IsContiguous(a.strides, t.shape, ElementBytes(t.dtype))
      && w.byteOffset + w.padBytes == w.alignedOffset && a.byteOffset + a.padBytes == a.alignedOffset
      && (IsPow2(t.Align()) ==> w.alignedOffset % t.Align() == 0 && a.byteOffset % t.Align() == 0)
      && (t.ioSurface ==> a.alignedOffset % PAGE == 0)
      && (!t.ioSurface ==> a.padBytes == 0)
  {
    var align := t.Align();
    var at := AlignUp(offset, align);
    AlignUpNotBelow(offset, align);
    AlignUpNotBelow(at, PAGE);
    if IsPow2(align) {
      AlignUpIsLeast(offset, align);
    }
    PageIsPow2();
    AlignUpIsLeast(at, PAGE);
    hide AlignUp, Contiguous, IsPow2, NumBytes;
  }

  // ---------------------------------------------------------------------
  // validate_layout
  // ---------------------------------------------------------------------

  datatype LayoutError = ZeroCopyUnaligned | ShapeNotContiguous | OffsetUnaligned | OutOfSegment

  function When(b: bool, e: LayoutError): seq<LayoutError> {
    if b then [e] else []
  }

  function ValidateLayout(r: Report, segmentBytes: nat): (errors: seq<LayoutError>)
    ensures forall e :: e in errors <==>
      || (e == ZeroCopyUnaligned && r.zeroCopy && r.alignedOffset % PAGE != 0)
      || (e == ShapeNotContiguous && !r.contiguous)
      || (e == OffsetUnaligned && r.byteOffset % ElementBytes(r.tensor.dtype) != 0)
      || (e == OutOfSegment && r.byteOffset + r.size > segmentBytes)
  {
    When(r.zeroCopy && r.alignedOffset % PAGE != 0, ZeroCopyUnaligned)
    + When(!r.contiguous, ShapeNotContiguous)
    + When(r.byteOffset % ElementBytes(r.tensor.dtype) != 0, OffsetUnaligned)
    + When(r.byteOffset + r.size > segmentBytes, OutOfSegment)
  }

  lemma PageIsPow2()
    ensures IsPow2(PAGE)
  {
    assert IsPow2(1) && IsPow2(2) && IsPow2(4) && IsPow2(8) && IsPow2(16) && IsPow2(32) && IsPow2(64);
    assert IsPow2(128) && IsPow2(256) && IsPow2(512) && IsPow2(1024) && IsPow2(2048);
  }

  /** An activation report validates against its final segment exactly when its offset meets
      the natural alignment: the other three checks always pass. */
  lemma {:induction false} ActivationValidIff(ts: seq<LayoutTensor>, k: nat)
    requires k < |ts|
    ensures var r := ActivationReport(ts[k], ActivationEnd(ts[..k]));
      ValidateLayout(r, ActivationEnd(ts)) == [] <==> r.byteOffset % ElementBytes(ts[k].dtype) == 0
  {
    var r := ActivationReport(ts[k], ActivationEnd(ts[..k]));
    ActivationsOrdered(ts, k, |ts|);
    assert ts[..|ts|] == ts;
    PageIsPow2();
    AlignUpIsLeast(r.byteOffset, PAGE);
    hide AlignUp, ActivationEnd, Contiguous, IsPow2;
  }

  /** A mask whose low bits are all set leaves a multiple. */
  lemma {:induction false} MaskClears(x: nat, mask: nat, p: nat)
    requires IsPow2(p) && (mask + 1) % p == 0
    ensures AndNot(x, mask) % p == 0
    decreases p
  {
    if p > 1 && x > 0 {
      HalveMultiple(mask + 1, p / 2);
      assert (mask + 1) / 2 == mask / 2 + 1;
      MaskClears(x / 2, mask / 2, p / 2);
      DoubleMultiple(AndNot(x / 2, mask / 2), p / 2);
    } else {
      DivModUnique(0, p, 0, 0);
    }
  }

  /** The lowest set bit of `a` is a multiple of a power of two only if `a` is. */
  lemma {:induction false} LowestBitDivides(a: nat, p: nat)
    requires a > 0 && IsPow2(p) && AndNot(a, a - 1) % p == 0
    ensures a % p == 0
    decreases a
  {
    if p > 1 {
      LowestBit(a);
      if a % 2 == 1 {
        assert (a - 1) / 2 == a / 2;
        AndNotSelf(a / 2);
        DivModUnique(1, p, 0, 1);
      } else {
        assert (a - 1) / 2 == a / 2 - 1 && (a - 1) % 2 == 1;
        HalveMultiple(AndNot(a, a - 1), p / 2);
        LowestBitDivides(a / 2, p / 2);
        DoubleMultiple(a / 2, p / 2);
      }
    }
  }

  lemma NaturalIsPow2(d: Dtype)
    ensures IsPow2(ElementBytes(d))
  {
    assert IsPow2(1) && IsPow2(2) && IsPow2(4) && IsPow2(8);
  }

  /** Every activation whose effective alignment is a multiple of its natural alignment validates. */
  lemma {:induction false} AlignedActivationValidates(ts: seq<LayoutTensor>, k: nat)
    requires k < |ts| && ts[k].Align() % ElementBytes(ts[k].dtype) == 0
    ensures ValidateLayout(ActivationReport(ts[k], ActivationEnd(ts[..k])), ActivationEnd(ts)) == []
  {
    NaturalIsPow2(ts[k].dtype);
    MaskClears(ActivationEnd(ts[..k]) + (ts[k].Align() - 1), ts[k].Align() - 1, ElementBytes(ts[k].dtype));
    ActivationValidIff(ts, k);
  }

  /** The report of `t` after the activations `before` validates. */
  predicate ValidAfter(t: LayoutTensor, before: seq<LayoutTensor>) {
    ValidateLayout(ActivationReport(t, ActivationEnd(before)), ActivationEnd(before + [t])) == []
  }

  /** An activation validates wherever it is placed if and only if its effective alignment is a
      multiple of its natural alignment. Otherwise it already fails after a single byte. */
  lemma {:induction false} ActivationAlwaysValidIff(t: LayoutTensor)
    ensures t.Align() % ElementBytes(t.dtype) == 0 <==> forall before: seq<LayoutTensor> :: ValidAfter(t, before)
  {
    var e, align := ElementBytes(t.dtype), t.Align();
    if align % e == 0 {
      forall before: seq<LayoutTensor>
        ensures ValidAfter(t, before)
      {
        AlignedActivationValidates(before + [t], |before|);
        assert (before + [t])[..|before|] == before;
      }
    } else {
      var byte := LayoutTensor("byte", [1], Int8, false, false, 1);
      OneByte(byte);
      NaturalIsPow2(t.dtype);
      ActivationValidIff([byte, t], 1);
      assert [byte, t][..1] == [byte] && [byte] + [t] == [byte, t];
      assert AlignUp(1, align) == AndNot(align, align - 1);
      if ValidAfter(t, [byte]) {
        LowestBitDivides(align, e);
      }
    }
  }

  lemma OneByte(byte: LayoutTensor)
    requires byte.shape == [1] && byte.dtype == Int8 && byte.alignment == 1
    ensures ActivationEnd([byte]) == 1
  {
    assert Front([byte]) == [];
    assert [1][1..] == [] && Product([1]) == 1 * Product([1][1..]);
    AndNotZero(0);
  }

  /** The weight segment has no padding, so a weight validates exactly when the sizes before
      it add up to a multiple of its natural alignment. A zero-copy weight is on a page, and
      aligning leaves it on one, so the page check always passes. */
  lemma {:induction false} WeightValidIff(ts: seq<LayoutTensor>, k: nat)
    requires k < |ts|
    ensures ValidateLayout(WeightReport(ts[k], WeightEnd(ts[..k])), WeightEnd(ts)) == []
       <==> WeightEnd(ts[..k]) % ElementBytes(ts[k].dtype) == 0
  {
    var offset := WeightEnd(ts[..k]);
    WeightsDense(ts, k, k + 1);
    if offset % PAGE == 0 {
      AlignUpKeepsPages(offset, ts[k].Align());
    }
    hide AlignUp, WeightEnd, Contiguous;
  }
}
