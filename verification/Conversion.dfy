// Arrays out of stored bytes (`dtype_to_array` in compute_image.rs), and which checked checkpoints
// the runtime can open.
module Conversion {
  import opened Common
  import opened Naming
  import opened Config
  import opened Emission
  import opened Compiler
  import opened EntryNames
  import opened ImageBuilder
  import opened BindingCheck
  import opened Checkpoints
  import opened ImageRuns
  import RL = RunLookups
  import R = Runtime

  /** Bytes per element of a storage type that can be converted; 0 for any other type. */
  function ElementWidth(dtype: string): nat {
    if dtype == "U8" || dtype == "Uint8" || dtype == "I8" || dtype == "Int8" then 1
    else if dtype == "BF16" || dtype == "BFloat16" then 2
    else if dtype == "U32" || dtype == "Uint32" || dtype == "I32" || dtype == "Int32" || dtype == "F32" || dtype == "Float32" then 4
    else 0
  }

  /** The type is known and the bytes are whole elements. */
  predicate Convertible(dtype: string, length: nat) {
    ElementWidth(dtype) != 0 && length % ElementWidth(dtype) == 0
  }

  /** `dtype_to_array`, over whatever makes an array of whole elements. */
  function DtypeToArray<A>(make: (Bytes, string, seq<nat>) -> A): Convert<A> {
    (bytes: Bytes, dtype: string, shape: seq<nat>) => if Convertible(dtype, |bytes|) then Some(make(bytes, dtype, shape)) else None
  }

  /** The types that are converted, with the bits that they have by their names. */
  const STORED_BITS := [("U8", 8), ("I8", 8), ("BF16", 16), ("U32", 32), ("I32", 32), ("F32", 32)]

  const NOT_CONVERTED := ["F64", "F16", "I64"]

  /** Each element has the bits of its type; the others are not converted. */
  lemma StoredWidths()
    ensures forall k :: 0 <= k < |STORED_BITS| ==> 8 * ElementWidth(STORED_BITS[k].0) == STORED_BITS[k].1
    ensures forall k :: 0 <= k < |NOT_CONVERTED| ==> ElementWidth(NOT_CONVERTED[k]) == 0
  {
  }

  /** The binding check accepts the types that are converted, and three more. */
  lemma CheckedTypes(dtype: string)
    ensures dtype in DTYPES <==> dtype in NOT_CONVERTED || exists k :: 0 <= k < |STORED_BITS| && STORED_BITS[k].0 == dtype
  {
    var s := STORED_BITS;
    assert s[0].0 == "U8" && s[1].0 == "I8" && s[2].0 == "BF16" && s[3].0 == "U32" && s[4].0 == "I32" && s[5].0 == "F32";
  }

  ghost predicate AllConvertible(sources: Sources, names: seq<string>) {
    forall n :: n in names && n in sources ==> Convertible(sources[n].dtype, |sources[n].data|)
  }

  lemma LoadedIff<A>(names: seq<string>, sources: Sources, make: (Bytes, string, seq<nat>) -> A)
    requires Holds(sources, names)
    ensures R.AllLoad(LoadedFrom(names, sources, DtypeToArray(make))) <==> AllConvertible(sources, names)
  {
    var ts := LoadedFrom(names, sources, DtypeToArray(make));
    hide Convertible;
    forall i | 0 <= i < |names|
      ensures ts[i] in ts && names[i] in names
      ensures ts[i].loaded.Some? <==> Convertible(sources[names[i]].dtype, |sources[names[i]].data|)
    {
      assert names[i] in names;
    }
    if R.AllLoad(ts) {
      forall n | n in names
        ensures Convertible(sources[n].dtype, |sources[n].data|)
      {
        var i :| 0 <= i < |names| && names[i] == n;
        assert ts[i] in ts;
      }
    }
    if AllConvertible(sources, names) {
      forall t | t in ts
        ensures t.loaded.Some?
      {
        var i :| 0 <= i < |ts| && ts[i] == t;
        assert names[i] in names;
      }
    }
  }

  /** An emitted image opens exactly when all tensors outside the layers are of types that can be converted,
      in whole elements; and layer l loads exactly when all of its are. */
  lemma {:induction false} OpensIff<A>(arch: TextArchitecture, ns: NamespaceBinding, q: Option<QuantizationMeta>,
                                       sources: Sources, e: Emitted, make: (Bytes, string, seq<nat>) -> A)
    requires Emits(arch, ns, q, sources, e)
    ensures |Flush(e.img).payloads| == |Flush(e.img).segments|
    ensures var m, files, spec, convert := ManifestOf(e.img), FilesOf(e.img), SpecOf(arch, ns.root, q), DtypeToArray(make);
      && |spec.layers| == |arch.layerTypes|
      && (R.AllLoad(Resident(m, files, m.persistentIds, convert)) <==> AllConvertible(sources, Needed(spec.globalTensors)))
      && forall l: nat :: l < |spec.layers| ==>
           (R.AllLoad(SegmentTensors(m, files, LayerSegment(l), convert))
            <==> AllConvertible(sources, Needed(spec.layers[l].tensors)))
  {
    hide *;
    EmitsIs(arch, ns, q, sources, e);
    var spec, convert := SpecOf(arch, ns.root, q), DtypeToArray(make);
    RuntimeTensors(arch, ns, q, sources, e, convert);
    var given := ImageEmitted(arch, ns, q, sources);
    PresentIff(sources, spec.globalTensors);
    LoadedIff(Needed(spec.globalTensors), sources, make);
    forall l: nat | l < |spec.layers|
      ensures R.AllLoad(SegmentTensors(ManifestOf(e.img), FilesOf(e.img), LayerSegment(l), convert))
         <==> AllConvertible(sources, Needed(spec.layers[l].tensors))
    {
      LayerPresentAt(sources, spec.layers, l);
      PresentIff(sources, spec.layers[l].tensors);
      LoadedIff(Needed(spec.layers[l].tensors), sources, make);
    }
  }

  lemma LayerPresentAt(sources: Sources, layers: seq<LayerSpec>, l: nat)
    requires LayersPresent(sources, layers) && l < |layers|
    ensures AllPresent(sources, layers[l].tensors)
  {
    hide AllPresent;
  }

  /** The complete checkpoint with its final norm in half precision. */
  function WithHalfNorm(spec: ExecutionSpec, root: string): Sources
    requires GlobalName(root, NORM) in Complete(spec)
  {
    var sources, norm := Complete(spec), GlobalName(root, NORM);
    var t := sources[norm];
    sources[norm := t.(dtype := "F16", data := t.data + t.data)]
  }

  /** Every model: with a final norm in half precision the complete checkpoint passes the check and
      compiles, and the image does not open. */
  lemma HalfNormNeverOpens<A>(arch: TextArchitecture, ns: NamespaceBinding, q: Option<QuantizationMeta>,
                              make: (Bytes, string, seq<nat>) -> A)
    requires Packable(Bits(q), GroupSize(q))
    ensures var spec := SpecOf(arch, ns.root, q);
      && GlobalName(ns.root, NORM) in Complete(spec)
      && var sources := WithHalfNorm(spec, ns.root);
      var r := EmitSpec(spec, ns, sources);
      && Executable(spec, sources) && r.Some? && |Flush(r.value.img).payloads| == |Flush(r.value.img).segments|
      && var m, files := ManifestOf(r.value.img), FilesOf(r.value.img);
      !R.AllLoad(Resident(m, files, m.persistentIds, DtypeToArray(make)))
  {
    hide *;
    var root, spec := ns.root, SpecOf(arch, ns.root, q);
    var norm := GlobalName(root, NORM);
    SpecParts(arch, root, q);
    RL.GlobalBindings(arch, root, q);
    RL.OwnFound(spec.globalTensors, 1);
    AllBindingsAre(spec);
    NeededConcat(spec.globalTensors, LayerBindings(spec.layers));
    CompleteNames(spec);
    var sources := WithHalfNorm(spec, root);
    HalfNormIs(spec, root);
    CompleteExecutable(arch, root, q, Complete(spec));
    StillExecutable(spec, Complete(spec), sources);
    CompleteCompiles(arch, ns, q, sources);
    var e := EmitSpec(spec, ns, sources).value;
    EmitsAs(arch, ns, q, sources, e);
    OpensIff(arch, ns, q, sources, e, make);
    HalfNotConvertible(sources, Needed(spec.globalTensors), norm);
  }

  lemma EmitsAs(arch: TextArchitecture, ns: NamespaceBinding, q: Option<QuantizationMeta>, sources: Sources, e: Emitted)
    requires Packable(Bits(q), GroupSize(q)) && EmitSpec(SpecOf(arch, ns.root, q), ns, sources) == Some(e)
    ensures Emits(arch, ns, q, sources, e)
  {
  }

  lemma HalfNormIs(spec: ExecutionSpec, root: string)
    requires GlobalName(root, NORM) in Complete(spec) && Holds(Complete(spec), Needed(AllBindings(spec)))
    ensures var sources, norm := WithHalfNorm(spec, root), GlobalName(root, NORM);
      && Holds(sources, Needed(AllBindings(spec))) && norm in sources && sources[norm].dtype == "F16"
      && AlikeButType(Complete(spec), sources)
  {
    hide Complete, AllBindings, Needed, GlobalName;
    assert DTYPES[2] == "F16";
  }

  /** The same names and shapes, and types that the check accepts where they differ. */
  ghost predicate AlikeButType(sources: Sources, more: Sources) {
    forall n :: n in sources ==>
      n in more && more[n].shape == sources[n].shape && (more[n].dtype == sources[n].dtype || more[n].dtype in DTYPES)
  }

  lemma StillExecutable(spec: ExecutionSpec, sources: Sources, more: Sources)
    requires Executable(spec, sources) && AlikeButType(sources, more)
    ensures Executable(spec, more)
  {
    hide AllBindings, DTYPES;
    forall b | b in AllBindings(spec)
      ensures Conforms(more, b)
    {
      assert Conforms(sources, b);
    }
  }

  lemma HalfNotConvertible(sources: Sources, names: seq<string>, n: string)
    requires n in names && n in sources && sources[n].dtype == "F16"
    ensures !AllConvertible(sources, names)
  {
    assert !Convertible("F16", |sources[n].data|);
  }
}
