// The check of a checkpoint against the compiled bindings (validator.rs), and what it leaves to
// the emission (compute_image.rs).
module BindingCheck {
  import opened Common
  import opened Naming
  import opened Config
  import opened Emission
  import opened Compiler
  import opened EntryNames
  import opened RunLookups

  const DTYPES := ["F32", "F64", "F16", "BF16", "I64", "U32", "I32", "I8", "U8"]

  datatype Status = Ok | Missing | ShapeMismatch | PackedShapeError | UnexpectedDtype

  /** The checkpoint has the binding's own tensor, of its logical or its packed shape, in a known
      storage type. */
  predicate Conforms(sources: Sources, b: TensorBinding) {
    && b.name in sources
    && (sources[b.name].shape == b.logicalShape || (b.packed.Some? && sources[b.name].shape == b.packed.value.weight))
    && sources[b.name].dtype in DTYPES
  }

  function CheckBinding(sources: Sources, b: TensorBinding): (status: Status)
    ensures status == Ok <==> Conforms(sources, b)
  {
    if b.name !in sources then Missing
    else
      var t := sources[b.name];
      var packedMatch := b.packed.Some? && b.packed.value.weight == t.shape;
      if t.shape != b.logicalShape && !packedMatch then
        if b.packed.Some? then PackedShapeError else ShapeMismatch
      else if t.dtype !in DTYPES then UnexpectedDtype
      else Ok
  }

  datatype Verdict = Verdict(executable: bool, expected: nat, found: nat, errors: nat)

  function Failures(sources: Sources, bs: seq<TensorBinding>): (n: nat)
    ensures n <= |bs|
    ensures n == 0 <==> forall b :: b in bs ==> Conforms(sources, b)
  {
    if bs == [] then 0
    else
      assert bs == Front(bs) + [Last(bs)];
      assert forall b :: b in bs <==> b in Front(bs) || b == Last(bs);
      Failures(sources, Front(bs)) + if CheckBinding(sources, Last(bs)) == Ok then 0 else 1
  }

  ghost predicate Executable(spec: ExecutionSpec, sources: Sources) {
    AllBindings(spec) != [] && forall b :: b in AllBindings(spec) ==> Conforms(sources, b)
  }

  /** One of the two loops over bindings. */
  method CheckAll(sources: Sources, bs: seq<TensorBinding>) returns (errors: nat)
    ensures errors == Failures(sources, bs)
  {
    errors := 0;
    for i := 0 to |bs|
      invariant errors == Failures(sources, bs[..i])
    {
      assert Front(bs[..i + 1]) == bs[..i] && Last(bs[..i + 1]) == bs[i];
      if CheckBinding(sources, bs[i]) != Ok {
        errors := errors + 1;
      }
    }
    assert bs[..|bs|] == bs;
  }

  lemma {:induction false} FailuresConcat(sources: Sources, a: seq<TensorBinding>, b: seq<TensorBinding>)
    ensures Failures(sources, a + b) == Failures(sources, a) + Failures(sources, b)
    decreases |b|
  {
    hide CheckBinding, Conforms;
    if b == [] {
      assert a + b == a;
    } else {
      ConcatFront(a, b);
      FailuresConcat(sources, a, Front(b));
    }
  }

  /** `validate_bindings`: globals, then the layers. */
  method ValidateBindings(spec: ExecutionSpec, sources: Sources) returns (v: Verdict)
    ensures v.executable <==> Executable(spec, sources)
    ensures v.expected == |AllBindings(spec)| == v.found + v.errors && v.errors == Failures(sources, AllBindings(spec))
  {
    hide Failures;
    var expected := |spec.globalTensors|;
    var errors := CheckAll(sources, spec.globalTensors);
    ghost var done := spec.globalTensors;
    assert spec.layers[..0] == [] && spec.globalTensors + [] == spec.globalTensors;
    for i := 0 to |spec.layers|
      invariant done == spec.globalTensors + LayerBindings(spec.layers[..i])
      invariant expected == |done| && errors == Failures(sources, done)
    {
      assert Front(spec.layers[..i + 1]) == spec.layers[..i] && Last(spec.layers[..i + 1]) == spec.layers[i];
      var more := CheckAll(sources, spec.layers[i].tensors);
      FailuresConcat(sources, done, spec.layers[i].tensors);
      done := done + spec.layers[i].tensors;
      expected, errors := expected + |spec.layers[i].tensors|, errors + more;
    }
    assert spec.layers[..|spec.layers|] == spec.layers;
    assert done == AllBindings(spec);
    FailuresMean(sources, done);
    v := Verdict(errors == 0 && expected != 0, expected, expected - errors, errors);
  }

  lemma FailuresMean(sources: Sources, bs: seq<TensorBinding>)
    ensures Failures(sources, bs) <= |bs|
    ensures Failures(sources, bs) == 0 <==> forall b :: b in bs ==> Conforms(sources, b)
  {
  }
}
