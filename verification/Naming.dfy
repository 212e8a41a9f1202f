// Names built with `format!`: decimal numbers, segment ids and tensor names.
module Naming {
  import opened Common

  function Digit(d: nat): char
    requires d < 10
  {
    '0' + d as char
  }

  predicate IsDigit(c: char) {
    '0' <= c <= '9'
  }

  function Decimal(n: nat): (s: string)
    ensures s != [] && forall i :: 0 <= i < |s| ==> IsDigit(s[i])
  {
    if n < 10 then [Digit(n)] else Decimal(n / 10) + [Digit(n % 10)]
  }

  /** The number a digit string denotes; leading zeros do not count. */
  function Value(s: string): nat
    requires forall i :: 0 <= i < |s| ==> IsDigit(s[i])
  {
    if s == [] then 0 else assert IsDigit(s[|s| - 1]); Value(Front(s)) * 10 + (Last(s) as int - '0' as int)
  }

  lemma {:induction false} ValueOfDecimal(n: nat)
    ensures Value(Decimal(n)) == n
  {
    if n < 10 {
      assert Front([Digit(n)]) == [];
    } else {
      ValueOfDecimal(n / 10);
      AppendFrontLast(Decimal(n / 10), Digit(n % 10));
    }
  }

  /** `{:03}`: pad with zeros on the left to width three. */
  function Pad3(s: string): (r: string)
    requires forall i :: 0 <= i < |s| ==> IsDigit(s[i])
    ensures forall i :: 0 <= i < |r| ==> IsDigit(r[i])
    decreases SatSub(3, |s|)
  {
    if |s| >= 3 then s else Pad3("0" + s)
  }

  lemma {:induction false} ValueOfPad3(s: string)
    requires forall i :: 0 <= i < |s| ==> IsDigit(s[i])
    ensures Value(Pad3(s)) == Value(s)
    decreases SatSub(3, |s|)
  {
    if |s| < 3 {
      ValueOfPad3("0" + s);
      LeadingZero(s);
    }
  }

  lemma {:induction false} LeadingZero(s: string)
    requires forall i :: 0 <= i < |s| ==> IsDigit(s[i])
    ensures Value("0" + s) == Value(s)
  {
    if s == [] {
      assert Front("0" + s) == [];
    } else {
      LeadingZero(Front(s));
      assert Front("0" + s) == "0" + Front(s);
    }
  }

  function LayerSegment(i: nat): string {
    "layer_" + Decimal(i)
  }

  function SegmentFile(i: nat): string {
    "segment_" + Pad3(Decimal(i)) + ".bin"
  }

  const PERSISTENT := "persistent"

  lemma {:induction false} LayerSegmentInjective(i: nat, j: nat)
    ensures LayerSegment(i) == LayerSegment(j) ==> i == j
    ensures LayerSegment(i) != PERSISTENT
  {
    ValueOfDecimal(i);
    ValueOfDecimal(j);
    assert LayerSegment(i)[6..] == Decimal(i) && LayerSegment(j)[6..] == Decimal(j);
    assert LayerSegment(i)[0] == 'l';
  }

  lemma {:induction false} SegmentFileInjective(i: nat, j: nat)
    ensures SegmentFile(i) == SegmentFile(j) ==> i == j
  {
    ValueOfDecimal(i);
    ValueOfDecimal(j);
    ValueOfPad3(Decimal(i));
    ValueOfPad3(Decimal(j));
    var a, b := Pad3(Decimal(i)), Pad3(Decimal(j));
    if SegmentFile(i) == SegmentFile(j) {
      assert |a| == |b|;
      assert a == SegmentFile(i)[8..8 + |a|] == SegmentFile(j)[8..8 + |b|] == b;
    }
  }

  /** The name of a tensor of layer `i`, and of a tensor outside the layers. */
  function LayerName(root: string, i: nat, suffix: string): string {
    root + ".layers." + Decimal(i) + "." + suffix
  }

  function GlobalName(root: string, suffix: string): string {
    root + "." + suffix
  }

  lemma {:induction false} LayerNameInjective(root: string, i: nat, s: string, j: nat, t: string)
    ensures LayerName(root, i, s) == LayerName(root, j, t) ==> i == j && s == t
  {
    var a, b := Decimal(i), Decimal(j);
    var p := root + ".layers.";
    var x, y := LayerName(root, i, s), LayerName(root, j, t);
    assert x[|p|..] == a + "." + s && y[|p|..] == b + "." + t;
    assert |a| < |b| ==> (b + "." + t)[|a|] == b[|a|] && IsDigit(b[|a|]);
    assert |b| < |a| ==> (a + "." + s)[|b|] == a[|b|] && IsDigit(a[|b|]);
    if x == y {
      assert (a + "." + s)[|a|] == '.' && (b + "." + t)[|b|] == '.';
      assert |a| == |b|;
      assert a == (a + "." + s)[..|a|] == b;
      assert s == (a + "." + s)[|a| + 1..] == t;
      ValueOfDecimal(i);
      ValueOfDecimal(j);
    }
  }

  lemma LayerNameNotGlobal(root: string, i: nat, s: string, suffix: string)
    requires |suffix| >= 2 && suffix[..2] != "la"
    ensures LayerName(root, i, s) != GlobalName(root, suffix)
  {
    var x, y := LayerName(root, i, s), GlobalName(root, suffix);
    var n := |root| + 1;
    assert x[n] == 'l' && x[n + 1] == 'a';
    assert y[n] == suffix[0] && y[n + 1] == suffix[1];
    assert suffix[..2] == [suffix[0], suffix[1]];
  }
}
