// The registry object behind the global lock, updated in place.
module Bridge {
  import opened Common
  import opened Registry
  import Spec = Registry

  /** A registry with fewer than 2^32 - 1 live handles has a slot for one more. */
  lemma RoomFor<A>(r: Registry<A>)
    requires Spec.Valid(r) && |Contents(r)| + 1 < U32_LIMIT
    ensures Indexable(r) && Room(r) && 1 <= |r.slots| <= U32_LIMIT
  {
    ValidIndexable(r);
  }

  class ArrayRegistry<A> {
    var slots: seq<Option<Entry<A>>>
    var freelist: seq<nat>
    var totalAllocated: nat

    ghost function View(): Registry<A>
      reads this
    {
      Registry(slots, freelist, totalAllocated)
    }

    ghost predicate Valid()
      reads this
    {
      Spec.Valid(View())
    }

    /** The live handles and their arrays. */
    ghost function Live(): map<Handle, A>
      requires Valid()
      reads this
    {
      Contents(View())
    }

    constructor ()
      ensures Valid() && View() == New() && Live() == map[]
    {
      slots, freelist, totalAllocated := [None], [], 0;
      new;
      NewValid<A>();
    }

    method Insert(a: A) returns (h: Handle)
      requires Valid() && |Live()| + 1 < U32_LIMIT
      modifies this
      ensures Indexable(old(View())) && (View(), h) == Spec.Insert(old(View()), a)
      ensures Valid() && h !in old(Live()) && Live() == old(Live())[h := a]
    {
      hide Contents, Spec.Valid, Spec.Insert, Indexable, Room;
      RoomFor(View());
      InsertSpec(View(), a);
      h := Fill(a);
    }

    /** The body of `insert`, for any registry whose freelist indexes its slots. */
    method Fill(a: A) returns (h: Handle)
      requires Indexable(View())
      modifies this
      ensures (View(), h) == Spec.Insert(old(View()), a)
    {
      if freelist != [] {
        var reused := Last(freelist);
        freelist := Front(freelist);
        var existing := slots[reused];
        var generation := if existing.Some? then (existing.value.generation + 1) % U32_LIMIT else 1;
        slots := slots[reused := Some(Entry(a, generation))];
        h := Pack(reused, generation);
      } else {
        h := Pack(|slots| % U32_LIMIT, 1);
        slots := slots + [Some(Entry(a, 1))];
      }
      totalAllocated := totalAllocated + 1;
    }

    method Get(h: Handle) returns (r: Option<A>)
      requires Valid()
      ensures r == Spec.Get(View(), h) && (r.Some? <==> h in Live()) && (h in Live() ==> r == Some(Live()[h]))
    {
      HandleIff(View(), h);
      var (slot, generation) := Unpack(h);
      if slot == 0 || slot >= |slots| {
        return None;
      }
      match slots[slot]
      case None => r := None;
      case Some(e) => r := if e.generation == generation then Some(e.item) else None;
    }

    method Remove(h: Handle) returns (r: Option<A>)
      requires Valid()
      modifies this
      ensures (View(), r) == Spec.Remove(old(View()), h)
      ensures Valid() && Live() == old(Live()) - {h} && (r.Some? <==> h in old(Live()))
    {
      RemoveSpec(View(), h);
      hide *;
      r := Take(h);
    }

    /** The body of `remove`, for any registry. */
    method Take(h: Handle) returns (r: Option<A>)
      modifies this
      ensures (View(), r) == Spec.Remove(old(View()), h)
    {
      var (slot, generation) := Unpack(h);
      if slot == 0 || slot >= |slots| {
        return None;
      }
      match slots[slot] {
        case None => r := None;
        case Some(e) =>
          if e.generation == generation {
            slots, freelist := slots[slot := None], freelist + [slot];
            r := Some(e.item);
          } else {
            r := None;
          }
      }
    }

    method DrainAll()
      modifies this
      ensures View() == Drain(old(View())) && Valid() && Live() == map[]
    {
      slots, freelist := [None], [];
      DrainSpec(View());
    }
  }
}
