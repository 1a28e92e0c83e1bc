/** Fixed-capacity pool of raw slots with an intrusive free list. */
module MemoryPools {
  import opened Types

  /** The free list starts at head and runs through the slots of `free`, which are pairwise distinct and hold
      nothing but links. */
  ghost predicate FreeList<T>(mem: seq<Cell<T>>, head: Ptr, free: seq<Ptr>) {
    && head == At(free, 0)
    && Distinct(free)
    && forall k :: 0 <= k < |free| ==> 0 <= free[k] < |mem| && mem[free[k]] == Node(At(free, k + 1))
  }

  /** Slots that are not on the free list may change at will. */
  lemma FreeListFrame<T>(mem: seq<Cell<T>>, mem': seq<Cell<T>>, head: Ptr, free: seq<Ptr>)
    requires FreeList(mem, head, free)
    requires |mem'| == |mem|
    requires forall p :: 0 <= p < |mem| && p in free ==> mem'[p] == mem[p]
    ensures FreeList(mem', head, free)
  {
  }

  lemma FreeSlotsHoldLinks<T>(mem: seq<Cell<T>>, head: Ptr, free: seq<Ptr>)
    requires FreeList(mem, head, free)
    ensures forall p :: p in free ==> 0 <= p < |mem| && mem[p].Node?
    ensures forall p :: Live(mem, p) ==> p !in free
  {
  }

  lemma NothingFree<T>(mem: seq<Cell<T>>)
    ensures FreeList(mem, NULL, [])
  {
  }

  lemma PushFree<T>(mem: seq<Cell<T>>, head: Ptr, free: seq<Ptr>, p: Ptr)
    requires FreeList(mem, head, free)
    requires 0 <= p < |mem| && p !in free
    ensures FreeList(mem[p := Node(head)], p, [p] + free)
  {
    forall k | 0 <= k < |free| + 1
      ensures mem[p := Node(head)][([p] + free)[k]] == Node(At([p] + free, k + 1))
    {
      if k > 0 {
        assert ([p] + free)[k] == free[k - 1];
      }
    }
  }

  /** Different names lead to different slots. */
  ghost predicate Injective<K(!new)>(used: map<K, Ptr>) {
    forall a, b :: a in used && b in used && used[a] == used[b] ==> a == b
  }

  ghost function SlotsOf<K(!new)>(used: map<K, Ptr>): set<Ptr> {
    set a | a in used :: used[a]
  }

  lemma {:induction false} UsedSlots<K(!new)>(used: map<K, Ptr>)
    requires Injective(used)
    ensures |SlotsOf(used)| == |used|
    decreases used.Keys
  {
    if used == map[] {
      assert SlotsOf(used) == {};
    } else {
      var a :| a in used;
      WithoutOne(used, a);
      UsedSlots(used - {a});
    }
  }

  lemma WithoutOne<K(!new)>(used: map<K, Ptr>, a: K)
    requires Injective(used) && a in used
    ensures Injective(used - {a}) && |used - {a}| == |used| - 1
    ensures SlotsOf(used) == SlotsOf(used - {a}) + {used[a]} && used[a] !in SlotsOf(used - {a})
  {
    RemovalSize(used, a);
    forall p | p in SlotsOf(used)
      ensures p in SlotsOf(used - {a}) + {used[a]}
    {
      var b :| b in used && used[b] == p;
      if b != a {
        assert b in used - {a};
      }
    }
  }

  /** When the slots in use and the free ones are as many as the pool has, each slot is one or the other. */
  lemma EverySlot<K(!new)>(used: map<K, Ptr>, free: seq<Ptr>, n: nat)
    requires Injective(used) && Distinct(free) && |used| + |free| == n
    requires forall a :: a in used ==> 0 <= used[a] < n && used[a] !in free
    requires forall p :: p in free ==> 0 <= p < n
    ensures forall p :: 0 <= p < n ==> p in free || exists a :: a in used && used[a] == p
  {
    var taken, spare := SlotsOf(used), set p | p in free;
    UsedSlots(used);
    DistinctCardinality(free, spare);
    Covered(taken, spare, n);
    forall p | 0 <= p < n
      ensures p in free || exists a :: a in used && used[a] == p
    {
      assert p in taken || p in spare;
    }
  }

  lemma Covered(taken: set<Ptr>, spare: set<Ptr>, n: nat)
    requires taken !! spare && |taken| + |spare| == n && forall p :: p in taken || p in spare ==> 0 <= p < n
    ensures forall p :: 0 <= p < n ==> p in taken || p in spare
  {
    var both := taken + spare;
    SubsetCardinality(both, Range(n));
    forall p | 0 <= p < n
      ensures p in both
    {
      assert p in Range(n);
    }
  }


  class MemoryPool<T> {
    const capacity: nat
    const storage: array<Cell<T>>
    var head: Ptr
    ghost var free: seq<Ptr>

    ghost predicate Valid()
      reads this, storage
    {
      storage.Length == capacity && FreeList(storage[..], head, free)
    }

    /** Every slot starts out free. */
    constructor (capacity: nat)
      ensures Valid() && this.capacity == capacity && |free| == capacity && fresh(storage)
    {
      this.capacity := capacity;
      storage := new Cell<T>[capacity](_ => Node(NULL));
      head := NULL;
      free := [];
      new;
      hide FreeList, Distinct;
      NothingFree(storage[..]);
      var prev := NULL;
      for i := 0 to capacity
        invariant storage.Length == capacity && |free| == i
        invariant FreeList(storage[..], prev, free)
        invariant forall p :: p in free ==> p < i
      {
        PushFree(storage[..], prev, free, i);
        storage[i] := Node(prev);
        prev := i;
        free := [i] + free;
      }
      head := prev;
    }

    /** acquire: pops the first free slot, or returns null when there is none. The slot still holds its old
        link: no object is constructed. */
    method Acquire() returns (p: Ptr)
      requires Valid()
      modifies this
      ensures Valid()
      ensures old(free) == [] ==> p == NULL && free == []
      ensures old(free) != [] ==> p == old(free)[0] && free == old(free)[1..] && p !in free
                                  && 0 <= p < capacity && storage[p].Node?
    {
      p := head;
      if p == NULL {
        return;
      }
      head := storage[p].link;
      free := free[1..];
    }

    /** release: pushes a slot that is not free, wiping whatever it held. */
    method Release(p: Ptr)
      requires Valid()
      requires p != NULL ==> 0 <= p < capacity && p !in free
      modifies this, storage
      ensures Valid()
      ensures p == NULL ==> free == old(free) && storage[..] == old(storage[..])
      ensures p != NULL ==> free == [p] + old(free) && storage[..] == old(storage[..])[p := Node(old(head))]
    {
      if p == NULL {
        return;
      }
      PushFree(storage[..], head, free, p);
      storage[p] := Node(head);
      head := p;
      free := [p] + free;
    }

    /** free_count: the walk along the links visits every free slot once. */
    method FreeCount() returns (n: nat)
      requires Valid()
      ensures n == |free|
    {
      n := 0;
      var p := head;
      while p != NULL
        invariant 0 <= n <= |free| && p == At(free, n)
        decreases |free| - n
      {
        n := n + 1;
        p := storage[p].link;
      }
    }
  }
}
