// The arena pool (arena_pool.rs): its critical sections as atomic actions of any number of
// threads, in any interleaving.
module ArenaPool {
  import opened Common

  datatype Key = Key(profile: string, dim0: nat, dim1: nat)

  datatype Arena = Arena(dim0: nat, dim1: nat, bytes: nat)

  const PROFILE := "IOSurfaceFp16ContiguousV1"

  /** An arena in use, and the key under which it was acquired. */
  datatype Loan = Loan(key: Key, arena: Arena)

  /** `entries` and `current` are the two locked fields. `loans` are the arenas handed out,
      `fresh_` those allocated by threads that have not yet passed the budget check, and
      `dropping` the bytes that a release has freed but not yet subtracted: it still holds
      the lock of `entries`. */
  datatype Pool = Pool(
    entries: map<Key, seq<Arena>>, current: nat, loans: seq<Loan>, fresh_: seq<Loan>, dropping: Option<nat>)

  datatype Limits = Limits(maxBytes: nat, maxPerKey: nat)

  const EMPTY := Pool(map[], 0, [], [], None)

  datatype Action =
    | TakeCached(key: Key)
    | Allocate(key: Key, bytes: nat)
    | Charge(i: nat)
    | Release(i: nat, key: Key)
    | ReleaseForeign(arena: Arena, key: Key)  // an arena that the pool has not handed out
    | Subtract

  function Cached(p: Pool, key: Key): seq<Arena> {
    if key in p.entries then p.entries[key] else []
  }

  function RemoveAt<T>(s: seq<T>, i: nat): seq<T>
    requires i < |s|
  {
    s[..i] + s[i + 1..]
  }

  predicate Enabled(p: Pool, a: Action) {
    match a
    case TakeCached(key) => key.profile == PROFILE && p.dropping.None? && Cached(p, key) != []
    case Allocate(key, _) => key.profile == PROFILE && p.dropping.None? && Cached(p, key) == []
    case Charge(i) => i < |p.fresh_|
    case Release(i, _) => i < |p.loans| && p.dropping.None?
    case ReleaseForeign(_, _) => p.dropping.None?
    case Subtract => p.dropping.Some?
  }

  /** A release caches the arena if its key has room. */
  function Return(l: Limits, p: Pool, arena: Arena, key: Key): Pool {
    if |Cached(p, key)| >= l.maxPerKey then
      p.(dropping := Some(arena.bytes), entries := p.entries[key := Cached(p, key)])
    else p.(entries := p.entries[key := Cached(p, key) + [arena]])
  }

  function Apply(l: Limits, p: Pool, a: Action): Pool
    requires Enabled(p, a)
  {
    match a
    case TakeCached(key) =>
      p.(entries := p.entries[key := Cached(p, key)[1..]], loans := p.loans + [Loan(key, Cached(p, key)[0])])
    case Allocate(key, bytes) => p.(fresh_ := p.fresh_ + [Loan(key, Arena(key.dim0, key.dim1, bytes))])
    case Charge(i) =>
      var loan := p.fresh_[i];
      if p.current + loan.arena.bytes > l.maxBytes then p.(fresh_ := RemoveAt(p.fresh_, i))
      else p.(fresh_ := RemoveAt(p.fresh_, i), current := p.current + loan.arena.bytes, loans := p.loans + [loan])
    case Release(i, key) => Return(l, p.(loans := RemoveAt(p.loans, i)), p.loans[i].arena, key)
    case ReleaseForeign(arena, key) => Return(l, p, arena, key)
    case Subtract => p.(current := SatSub(p.current, p.dropping.value), dropping := None)
  }

  function Run(l: Limits, acts: seq<Action>): Option<Pool> {
    if acts == [] then Some(EMPTY)
    else
      match Run(l, Front(acts))
      case None => None
      case Some(p) => if Enabled(p, Last(acts)) then Some(Apply(l, p, Last(acts))) else None
  }

  // ---------------------------------------------------------------------
  // Byte sums
  // ---------------------------------------------------------------------

  function Bytes(s: seq<Arena>): nat {
    if s == [] then 0 else s[0].bytes + Bytes(s[1..])
  }

  lemma {:induction false} BytesAppend(s: seq<Arena>, a: Arena)
    ensures Bytes(s + [a]) == Bytes(s) + a.bytes
  {
    if s == [] {
      assert [a][1..] == [];
    } else {
      BytesAppend(s[1..], a);
      assert (s + [a])[1..] == s[1..] + [a];
    }
  }

  ghost function MapBytes(m: map<Key, seq<Arena>>): nat {
    if m == map[] then 0
    else
      var k :| k in m;
      Bytes(m[k]) + MapBytes(m - {k})
  }

  /** The sum does not depend on the order in which keys are taken. */
  lemma {:induction false} MapBytesAt(m: map<Key, seq<Arena>>, k: Key)
    requires k in m
    ensures MapBytes(m) == Bytes(m[k]) + MapBytes(m - {k})
    decreases |m|
  {
    var first :| first in m && MapBytes(m) == Bytes(m[first]) + MapBytes(m - {first});
    if first != k {
      MapBytesAt(m - {first}, k);
      MapBytesAt(m - {k}, first);
      assert m - {first} - {k} == m - {k} - {first};
    }
  }

  lemma MapBytesUpdate(m: map<Key, seq<Arena>>, k: Key, s: seq<Arena>)
    ensures MapBytes(m[k := s]) + (if k in m then Bytes(m[k]) else 0) == MapBytes(m) + Bytes(s)
  {
    MapBytesAt(m[k := s], k);
    if k in m {
      MapBytesAt(m, k);
      assert m[k := s] - {k} == m - {k};
    } else {
      assert m[k := s] - {k} == m;
    }
  }

  function LoanBytes(s: seq<Loan>): nat {
    if s == [] then 0 else s[0].arena.bytes + LoanBytes(s[1..])
  }

  lemma {:induction false} LoanBytesAppend(s: seq<Loan>, a: Loan)
    ensures LoanBytes(s + [a]) == LoanBytes(s) + a.arena.bytes
  {
    if s == [] {
      assert [a][1..] == [];
    } else {
      LoanBytesAppend(s[1..], a);
      assert (s + [a])[1..] == s[1..] + [a];
    }
  }

  lemma {:induction false} LoanBytesRemove(s: seq<Loan>, i: nat)
    requires i < |s|
    ensures LoanBytes(s) == LoanBytes(RemoveAt(s, i)) + s[i].arena.bytes
  {
    if i == 0 {
      assert RemoveAt(s, 0) == s[1..];
    } else {
      LoanBytesRemove(s[1..], i - 1);
      assert RemoveAt(s, i)[1..] == RemoveAt(s[1..], i - 1) && RemoveAt(s, i)[0] == s[0];
    }
  }

  // ---------------------------------------------------------------------
  // Accounting
  // ---------------------------------------------------------------------

  /** The counter is within budget, and no key caches more than its limit. */
  ghost predicate Bounded(l: Limits, p: Pool) {
    p.current <= l.maxBytes && forall k :: k in p.entries ==> |p.entries[k]| <= l.maxPerKey
  }

  /** `current` is what is cached, handed out, or freed but not yet subtracted. */
  ghost predicate Accounted(l: Limits, p: Pool) {
    Bounded(l, p) && p.current == MapBytes(p.entries) + LoanBytes(p.loans) + p.dropping.GetOr(0)
  }

  /** A release of bytes that were never charged. */
  predicate Uncharged(a: Action) {
    a.ReleaseForeign? && a.arena.bytes > 0
  }

  lemma BoundedStep(l: Limits, p: Pool, a: Action)
    requires Bounded(l, p) && Enabled(p, a)
    ensures Bounded(l, Apply(l, p, a))
  {
  }

  /** What a release adds to the bytes cached or being dropped. */
  lemma ReturnBytes(l: Limits, p: Pool, arena: Arena, key: Key)
    requires p.dropping.None?
    ensures var n := Return(l, p, arena, key);
      && n.current == p.current && n.loans == p.loans
      && MapBytes(n.entries) + n.dropping.GetOr(0) == MapBytes(p.entries) + arena.bytes
  {
    hide MapBytes;
    var s := Cached(p, key);
    MapBytesUpdate(p.entries, key, s);
    MapBytesUpdate(p.entries, key, s + [arena]);
    BytesAppend(s, arena);
    assert Bytes([]) == 0;
  }

  /** A critical section keeps the count exact if and only if it is not a release of bytes that
      were never charged. */
  lemma AccountedStep(l: Limits, p: Pool, a: Action)
    requires Accounted(l, p) && Enabled(p, a)
    ensures Accounted(l, Apply(l, p, a)) <==> !Uncharged(a)
  {
    BoundedStep(l, p, a);
    hide MapBytes, LoanBytes, Bounded;
    match a
    case TakeCached(key) =>
      var s := Cached(p, key);
      MapBytesUpdate(p.entries, key, s[1..]);
      LoanBytesAppend(p.loans, Loan(key, s[0]));
    case Allocate(key, bytes) =>
    case Charge(i) => LoanBytesAppend(p.loans, p.fresh_[i]);
    case Release(i, key) =>
      LoanBytesRemove(p.loans, i);
      ReturnBytes(l, p.(loans := RemoveAt(p.loans, i)), p.loans[i].arena, key);
    case ReleaseForeign(arena, key) => ReturnBytes(l, p, arena, key);
    case Subtract => BoundedSays(l, p);
  }

  lemma BoundedSays(l: Limits, p: Pool)
    requires Bounded(l, p)
    ensures p.current <= l.maxBytes
  {
  }

  /** No release so far gave back bytes that were never charged. */
  predicate ChargedReleases(acts: seq<Action>) {
    forall k :: 0 <= k < |acts| ==> !Uncharged(acts[k])
  }

  /** The count has been exact all along. */
  ghost predicate AlwaysAccounted(l: Limits, acts: seq<Action>)
    requires Run(l, acts).Some?
  {
    Accounted(l, Run(l, acts).value) && (acts != [] ==> AlwaysAccounted(l, Front(acts)))
  }

  /** Over every interleaving: the counter is within budget and no key caches more than its limit;
      and the counter has always been exact if and only if no arena from elsewhere has been released. */
  lemma {:induction false} PoolAccounting(l: Limits, acts: seq<Action>)
    requires Run(l, acts).Some?
    ensures Bounded(l, Run(l, acts).value)
    ensures AlwaysAccounted(l, acts) <==> ChargedReleases(acts)
  {
    if acts == [] {
      assert Accounted(l, EMPTY);
    } else {
      PoolAccounting(l, Front(acts));
      var p := Run(l, Front(acts)).value;
      BoundedStep(l, p, Last(acts));
      hide Accounted, Bounded, Apply, Uncharged;
      assert ChargedReleases(acts) <==> ChargedReleases(Front(acts)) && !Uncharged(Last(acts)) by { ChargedStep(acts); }
      if AlwaysAccounted(l, Front(acts)) {
        assert Accounted(l, p);
        AccountedStep(l, p, Last(acts));
      }
    }
  }

  lemma ChargedStep(acts: seq<Action>)
    requires acts != []
    ensures ChargedReleases(acts) <==> ChargedReleases(Front(acts)) && !Uncharged(Last(acts))
  {
    hide Uncharged;
    assert forall k :: 0 <= k < |acts| - 1 ==> Front(acts)[k] == acts[k];
  }

  /** An exact count is what is cached and handed out whenever no release is under way, and the
      saturating subtraction does not saturate. */
  lemma AccountedMeans(l: Limits, p: Pool)
    requires Accounted(l, p)
    ensures p.dropping.None? ==> p.current == MapBytes(p.entries) + LoanBytes(p.loans)
    ensures p.dropping.Some? ==> p.dropping.value <= p.current && SatSub(p.current, p.dropping.value) == p.current - p.dropping.value
  {
  }

  /** An arena from elsewhere is cached without being charged: more bytes in the pool than the
      budget allows, and a counter of zero. */
  lemma ForeignArenaIsFree() returns (l: Limits, acts: seq<Action>)
    ensures Run(l, acts).Some?
    ensures var p := Run(l, acts).value; p.current == 0 && MapBytes(p.entries) > l.maxBytes
  {
    l := Limits(100, 4);
    var key, arena := Key(PROFILE, 8, 8), Arena(8, 8, 128);
    acts := [ReleaseForeign(arena, key)];
    assert Front(acts) == [] && Run(l, []) == Some(EMPTY);
    var p := EMPTY.(entries := map[key := [arena]]);
    assert Cached(EMPTY, key) == [] && [] + [arena] == [arena];
    assert Run(l, acts) == Some(p);
    MapBytesAt(p.entries, key);
    assert [arena][1..] == [];
  }

  // ---------------------------------------------------------------------
  // Shapes
  // ---------------------------------------------------------------------

  predicate Fits(key: Key, a: Arena) {
    a.dim0 == key.dim0 && a.dim1 == key.dim1
  }

  ghost predicate ShapesOk(p: Pool) {
    && (forall k, i :: k in p.entries && 0 <= i < |p.entries[k]| ==> Fits(k, p.entries[k][i]))
    && (forall i :: 0 <= i < |p.loans| ==> Fits(p.loans[i].key, p.loans[i].arena))
    && (forall i :: 0 <= i < |p.fresh_| ==> Fits(p.fresh_[i].key, p.fresh_[i].arena))
  }

  /** What a release must meet: the arena has the shape of the key, or the key's cache is full
      and the arena is dropped. */
  predicate Fitting(l: Limits, p: Pool, a: Action)
    requires Enabled(p, a)
  {
    && (a.Release? ==> |Cached(p, a.key)| >= l.maxPerKey || Fits(a.key, p.loans[a.i].arena))
    && (a.ReleaseForeign? ==> |Cached(p, a.key)| >= l.maxPerKey || Fits(a.key, a.arena))
  }

  /** A step keeps the shapes right if and only if it is not a release that caches a misfit. */
  lemma ShapesStepIff(l: Limits, p: Pool, a: Action)
    requires ShapesOk(p) && Enabled(p, a)
    ensures ShapesOk(Apply(l, p, a)) <==> Fitting(l, p, a)
  {
    if !Fitting(l, p, a) {
      var n, arena := Apply(l, p, a), if a.Release? then p.loans[a.i].arena else a.arena;
      assert n.entries[a.key][|Cached(p, a.key)|] == arena;
    }
  }

  /** Every release so far met the condition. */
  ghost predicate FittingReleases(l: Limits, acts: seq<Action>)
    requires Run(l, acts).Some?
  {
    acts != [] ==> FittingReleases(l, Front(acts)) && Fitting(l, Run(l, Front(acts)).value, Last(acts))
  }

  /** The shapes have been right all along. */
  ghost predicate AlwaysShaped(l: Limits, acts: seq<Action>)
    requires Run(l, acts).Some?
  {
    ShapesOk(Run(l, acts).value) && (acts != [] ==> AlwaysShaped(l, Front(acts)))
  }

  /** Over every interleaving: all arenas, cached or handed out, have had the shape of their key
      if and only if no release has cached one that does not fit. */
  lemma {:induction false} AcquiredShapeIff(l: Limits, acts: seq<Action>)
    requires Run(l, acts).Some?
    ensures AlwaysShaped(l, acts) <==> FittingReleases(l, acts)
  {
    if acts == [] {
      assert ShapesOk(EMPTY);
    } else {
      AcquiredShapeIff(l, Front(acts));
      var p := Run(l, Front(acts)).value;
      hide ShapesOk, Fitting, Apply;
      if AlwaysShaped(l, Front(acts)) {
        assert ShapesOk(p);
        ShapesStepIff(l, p, Last(acts));
      }
    }
  }

  /** Every release so far used the key under which the arena had been acquired, or one that an
      arena from elsewhere fits. */
  ghost predicate HonestReleases(l: Limits, acts: seq<Action>)
    requires Run(l, acts).Some?
  {
    acts != [] ==>
      HonestReleases(l, Front(acts))
      && (Last(acts).Release? ==> Last(acts).key == Run(l, Front(acts)).value.loans[Last(acts).i].key)
      && (Last(acts).ReleaseForeign? ==> Fits(Last(acts).key, Last(acts).arena))
  }

  /** In particular an arena acquired for a key has that key's shape, if releases use the keys
      of the acquires. */
  lemma {:induction false} AcquiredShape(l: Limits, acts: seq<Action>)
    requires Run(l, acts).Some? && HonestReleases(l, acts)
    ensures AlwaysShaped(l, acts) && FittingReleases(l, acts)
  {
    if acts == [] {
      assert ShapesOk(EMPTY);
    } else {
      AcquiredShape(l, Front(acts));
      assert Fitting(l, Run(l, Front(acts)).value, Last(acts));
      AcquiredShapeIff(l, acts);
    }
  }

  /** A run in which an arena released under another key is handed out for it. */
  lemma DishonestReleaseBreaksShape()
    returns (l: Limits, acts: seq<Action>)
    ensures Run(l, acts).Some? && !ShapesOk(Run(l, acts).value)
  {
    l := Limits(100, 4);
    var small, large := Key(PROFILE, 1, 4), Key(PROFILE, 8, 8);
    var a0, a1, a2, a3 := Allocate(small, 8), Charge(0), Release(0, large), TakeCached(large);
    acts := [a0, a1, a2, a3];
    assert Front(acts) == [a0, a1, a2] && Front([a0, a1, a2]) == [a0, a1] && Front([a0, a1]) == [a0] && Front([a0]) == [];
    var arena := Arena(1, 4, 8);
    assert Run(l, []) == Some(EMPTY) && Cached(EMPTY, small) == [];
    var p1 := EMPTY.(fresh_ := [Loan(small, arena)]);
    assert EMPTY.fresh_ + [Loan(small, arena)] == [Loan(small, arena)];
    assert Run(l, [a0]) == Some(p1);
    assert RemoveAt(p1.fresh_, 0) == [] && p1.loans + [p1.fresh_[0]] == [Loan(small, arena)];
    var p2 := Pool(map[], 8, [Loan(small, arena)], [], None);
    assert Run(l, [a0, a1]) == Some(p2);
    assert RemoveAt(p2.loans, 0) == [] && Cached(p2, large) == [] && [] + [arena] == [arena];
    var p3 := Pool(map[large := [arena]], 8, [], [], None);
    assert Run(l, [a0, a1, a2]) == Some(p3);
    assert Cached(p3, large) == [arena];
    var p4 := Apply(l, p3, a3);
    assert Run(l, acts) == Some(p4);
    assert p4.loans[0] == Loan(large, arena) && !Fits(large, arena);
  }
}
