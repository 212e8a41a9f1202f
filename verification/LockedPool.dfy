// The pool object of arena_pool.rs: one method for each critical section, each an atomic
// action of module ArenaPool, and the calls as one thread alone makes them.
module LockedPool {
  import opened Common
  import Spec = ArenaPool

  datatype Outcome =
    | Acquired(arena: Spec.Arena, wasPooled: bool)
    | UnsupportedProfile
    | BudgetExceeded(current: nat, asked: nat)

  datatype PoolStats = PoolStats(totalEntries: nat, freeEntries: nat, currentBytes: nat, maxBytes: nat)

  class ArenaPool {
    const maxTotalBytes: nat
    const maxArenasPerKey: nat
    var entries: map<Spec.Key, seq<Spec.Arena>>
    var currentBytes: nat

    /** Who holds what: arenas handed out, arenas allocated but not yet charged, and the bytes
        of an arena dropped by a release that still holds the lock. */
    ghost var loans: seq<Spec.Loan>
    ghost var uncharged: seq<Spec.Loan>
    ghost var dropping: Option<nat>

    constructor (maxTotalBytes: nat, maxArenasPerKey: nat)
      ensures View() == Spec.EMPTY
      ensures this.maxTotalBytes == maxTotalBytes && this.maxArenasPerKey == maxArenasPerKey
    {
      this.maxTotalBytes, this.maxArenasPerKey := maxTotalBytes, maxArenasPerKey;
      entries, currentBytes := map[], 0;
      loans, uncharged, dropping := [], [], None;
    }

    ghost function View(): Spec.Pool
      reads this
    {
      Spec.Pool(entries, currentBytes, loans, uncharged, dropping)
    }

    ghost function Limits(): Spec.Limits {
      Spec.Limits(maxTotalBytes, maxArenasPerKey)
    }

    /** First half of `acquire`, under the lock of `entries`: a cached arena, if there is one. */
    method TryTake(key: Spec.Key) returns (taken: Option<Spec.Arena>)
      requires key.profile == Spec.PROFILE && dropping.None?
      modifies this
      ensures taken.None? <==> Spec.Cached(old(View()), key) == []
      ensures taken.None? ==> View() == old(View())
      ensures taken.Some? ==> View() == Spec.Apply(Limits(), old(View()), Spec.TakeCached(key))
      ensures taken.Some? ==> Last(loans) == Spec.Loan(key, taken.value)
    {
      if key in entries && |entries[key]| > 0 {
        var free := entries[key];
        entries := entries[key := free[1..]];
        loans := loans + [Spec.Loan(key, free[0])];
        return Some(free[0]);
      }
      return None;
    }

    /** The allocation between the two locks; the arena is new, of the key's dimensions. */
    method Allocate(key: Spec.Key, byteLen: nat) returns (arena: Spec.Arena)
      requires Spec.Enabled(View(), Spec.Allocate(key, byteLen))
      modifies this`uncharged
      ensures View() == Spec.Apply(Limits(), old(View()), Spec.Allocate(key, byteLen))
      ensures Last(uncharged) == Spec.Loan(key, arena) && |uncharged| == |old(uncharged)| + 1
    {
      arena := Spec.Arena(key.dim0, key.dim1, byteLen);
      uncharged := uncharged + [Spec.Loan(key, arena)];
    }

    /** Second half of `acquire`, under the lock of `current_bytes`. */
    method Charge(arena: Spec.Arena, ghost i: nat) returns (outcome: Outcome)
      requires i < |uncharged| && uncharged[i].arena == arena
      modifies this
      ensures View() == Spec.Apply(Limits(), old(View()), Spec.Charge(i))
      ensures outcome == if old(currentBytes) + arena.bytes > maxTotalBytes
                         then BudgetExceeded(old(currentBytes), arena.bytes) else Acquired(arena, false)
    {
      ghost var loan := uncharged[i];
      uncharged := Spec.RemoveAt(uncharged, i);
      if currentBytes + arena.bytes > maxTotalBytes {
        return BudgetExceeded(currentBytes, arena.bytes);
      }
      currentBytes := currentBytes + arena.bytes;
      loans := loans + [loan];
      return Acquired(arena, false);
    }

    /** The arena is loan number `loan`, or was made elsewhere. */
    ghost predicate HasLoan(loan: Option<nat>, arena: Spec.Arena)
      reads this
    {
      loan.Some? ==> loan.value < |loans| && loans[loan.value].arena == arena
    }

    ghost function Returning(key: Spec.Key, arena: Spec.Arena, loan: Option<nat>): Spec.Action {
      match loan
      case Some(i) => Spec.Release(i, key)
      case None => Spec.ReleaseForeign(arena, key)
    }

    /** `release` under the lock of `entries`, up to where a full cache takes the second lock. */
    method Store(key: Spec.Key, arena: Spec.Arena, ghost loan: Option<nat>) returns (kept: bool)
      requires dropping.None? && HasLoan(loan, arena)
      modifies this
      ensures View() == Spec.Apply(Limits(), old(View()), Returning(key, arena, loan))
      ensures kept <==> |Spec.Cached(old(View()), key)| < maxArenasPerKey
      ensures dropping == if kept then None else Some(arena.bytes)
    {
      if loan.Some? {
        loans := Spec.RemoveAt(loans, loan.value);
      }
      if key !in entries {
        entries := entries[key := []];
      }
      if |entries[key]| >= maxArenasPerKey {
        dropping := Some(arena.bytes);
        return false;
      }
      entries := entries[key := entries[key] + [arena]];
      return true;
    }

    /** The rest of that `release`: the dropped arena's bytes leave the budget. */
    method Subtract(byteSize: nat)
      requires dropping == Some(byteSize)
      modifies this`currentBytes, this`dropping
      ensures View() == Spec.Apply(Limits(), old(View()), Spec.Subtract)
    {
      currentBytes := SatSub(currentBytes, byteSize);
      dropping := None;
    }

    /** `acquire` when no other thread runs between its two halves. */
    method Acquire(profile: string, dim0: nat, dim1: nat, byteLen: nat) returns (outcome: Outcome)
      requires dropping.None?
      modifies this
      ensures dropping.None? && uncharged == old(uncharged)
      ensures old(Spec.Accounted(Limits(), View())) ==> Spec.Accounted(Limits(), View())
      ensures outcome.UnsupportedProfile? <==> profile != Spec.PROFILE
      ensures outcome.Acquired? ==> loans == old(loans) + [Spec.Loan(Spec.Key(profile, dim0, dim1), outcome.arena)]
      ensures outcome.Acquired? && outcome.wasPooled ==> currentBytes == old(currentBytes)
      ensures outcome.Acquired? && !outcome.wasPooled ==> currentBytes == old(currentBytes) + byteLen <= maxTotalBytes
      ensures !outcome.Acquired? ==> View() == old(View())
      ensures outcome.BudgetExceeded? ==> old(currentBytes) + byteLen > maxTotalBytes
    {
      if profile != Spec.PROFILE {
        return UnsupportedProfile;
      }
      hide Spec.Accounted;
      ghost var exact := Spec.Accounted(Limits(), View());
      var key := Spec.Key(profile, dim0, dim1);
      var taken := TryTake(key);
      if taken.Some? {
        if exact {
          Spec.AccountedStep(Limits(), old(View()), Spec.TakeCached(key));
        }
        return Acquired(taken.value, true);
      }
      var arena := Allocate(key, byteLen);
      ghost var i: nat := |uncharged| - 1;
      assert Spec.RemoveAt(uncharged, i) == old(uncharged);
      if exact {
        Spec.AccountedStep(Limits(), old(View()), Spec.Allocate(key, byteLen));
        Spec.AccountedStep(Limits(), View(), Spec.Charge(i));
      }
      outcome := Charge(arena, i);
    }

    /** `release` when no other thread runs: the arena is cached, or its bytes are given back,
        whether they were charged or not. */
    method Release(key: Spec.Key, arena: Spec.Arena, ghost loan: Option<nat>)
      requires dropping.None? && HasLoan(loan, arena)
      modifies this
      ensures dropping.None? && uncharged == old(uncharged)
      ensures loans == if loan.Some? then Spec.RemoveAt(old(loans), loan.value) else old(loans)
      ensures var cached := Spec.Cached(old(View()), key);
        entries == old(entries)[key := if |cached| < maxArenasPerKey then cached + [arena] else cached]
      ensures currentBytes == if |Spec.Cached(old(View()), key)| < maxArenasPerKey then old(currentBytes)
                              else SatSub(old(currentBytes), arena.bytes)
      ensures old(Spec.Accounted(Limits(), View())) && (loan.Some? || arena.bytes == 0) ==>
                Spec.Accounted(Limits(), View())
                && (|Spec.Cached(old(View()), key)| >= maxArenasPerKey ==> currentBytes == old(currentBytes) - arena.bytes)
    {
      ghost var exact := Spec.Accounted(Limits(), View()) && (loan.Some? || arena.bytes == 0);
      if exact {
        Spec.AccountedStep(Limits(), View(), Returning(key, arena, loan));
      }
      var kept := Store(key, arena, loan);
      if !kept {
        if exact {
          Spec.AccountedMeans(Limits(), View());
          Spec.AccountedStep(Limits(), View(), Spec.Subtract);
        }
        Subtract(arena.bytes);
      }
    }

    /** `stats`: every cached entry is free. */
    method Stats() returns (stats: PoolStats)
      ensures stats == PoolStats(Count(entries), Count(entries), currentBytes, maxTotalBytes)
    {
      var total, rest := 0, entries;
      while rest != map[]
        invariant total + Count(rest) == Count(entries)
        decreases |rest|
      {
        var key :| key in rest;
        CountAt(rest, key);
        total := total + |rest[key]|;
        rest := rest - {key};
      }
      stats := PoolStats(total, total, currentBytes, maxTotalBytes);
    }
  }

  ghost function Count(m: map<Spec.Key, seq<Spec.Arena>>): nat {
    if m == map[] then 0
    else
      var k :| k in m;
      |m[k]| + Count(m - {k})
  }

  lemma {:induction false} CountAt(m: map<Spec.Key, seq<Spec.Arena>>, k: Spec.Key)
    requires k in m
    ensures Count(m) == |m[k]| + Count(m - {k})
    decreases |m|
  {
    var first :| first in m && Count(m) == |m[first]| + Count(m - {first});
    if first != k {
      CountAt(m - {first}, k);
      CountAt(m - {k}, first);
      assert m - {first} - {k} == m - {k} - {first};
    }
  }
}
