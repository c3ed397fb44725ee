/** Pre-allocated storage with a free list. A slot's address is its position in the storage, which
    growth at the end never changes. */
module ObjectPools {
  import opened Levels
  import BookState

  class ObjectPool<T> {
    /** What a default-constructed object looks like. */
    const blank: T
    var storage: seq<T>
    var freeList: seq<Slot>

    /** The free list names existing slots, each at most once. */
    ghost predicate Valid()
      reads this
    {
      NoDup(freeList) && InRange(freeList, |storage|)
    }

    constructor (initialCapacity: nat, blank: T)
      ensures Valid() && this.blank == blank
      ensures |storage| == |freeList| == initialCapacity
      ensures forall s :: 0 <= s < initialCapacity ==> s in freeList
    {
      var objects: seq<T>, free: seq<Slot> := [], [];
      for i := 0 to initialCapacity
        invariant |objects| == |free| == i
        invariant forall k :: 0 <= k < i ==> free[k] == k
      {
        objects := objects + [blank];
        free := free + [i];
      }
      forall s | 0 <= s < initialCapacity ensures s in free {
        assert free[s] == s;
      }
      this.blank := blank;
      storage, freeList := objects, free;
    }

    /** Hands out the most recently freed slot, or a new one at the end. Slots already handed out
        keep their address and their contents. */
    method Acquire() returns (slot: Slot)
      requires Valid()
      modifies this
      ensures Valid() && slot < |storage| && slot !in freeList
      ensures old(freeList) == [] ==> slot == |old(storage)| && storage == old(storage) + [blank] && freeList == []
      ensures old(freeList) != [] ==> old(freeList) == freeList + [slot] && storage == old(storage)
    {
      if freeList == [] {
        slot := |storage|;
        storage := storage + [blank];
      } else {
        var n := |freeList| - 1;
        slot := freeList[n];
        freeList := freeList[..n];
      }
    }

    /** Takes a slot back; the slot must be one that is handed out. */
    method Release(slot: Slot)
      requires Valid() && slot < |storage| && slot !in freeList
      modifies this`freeList
      ensures Valid() && freeList == old(freeList) + [slot]
    {
      freeList := freeList + [slot];
    }

    /** Slots handed out. The subtraction cannot wrap around. */
    function ActiveCount(): (n: nat)
      requires Valid()
      reads this
      ensures n == |BookState.Range(|storage|) - BookState.SetOf(freeList)|
    {
      CountHandedOut(freeList, |storage|);
      |storage| - |freeList|
    }
  }

  lemma {:induction false} CountHandedOut(free: seq<Slot>, n: nat)
    requires NoDup(free) && InRange(free, n)
    ensures |BookState.Range(n) - BookState.SetOf(free)| == n - |free|
  {
    BookState.NoDupCard(free);
    var all, f := BookState.Range(n), BookState.SetOf(free);
    assert f <= all;
    assert (all - f) + f == all;
  }
}
