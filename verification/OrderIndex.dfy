/** Order lookup: a directly addressed array of slots with an overflow map for colliding ids. The array holds
    pointers only; which id a slot is taken by is read from the order it points to. */
module OrderIndexes {
  import opened Types
  import opened MemoryPools

  /** id & kMask, for a table of n slots. */
  function SlotOf(id: OrderId, n: nat): (i: nat)
    requires n > 0
    ensures i < n
  {
    id % n
  }

  /** The index holds exactly the entries of ids: each one in its direct slot or in overflow, never in both. An
      overflow entry may remain after the order that kept it out of the array is gone. */
  ghost predicate Indexes(slots: seq<Ptr>, overflow: map<OrderId, Ptr>, om: seq<Cell<Order>>, ids: map<OrderId, Ptr>) {
    && |slots| > 0
    && (forall i :: 0 <= i < |slots| && slots[i] != NULL ==>
          && Live(om, slots[i])
          && var id := om[slots[i]].value.id;
             SlotOf(id, |slots|) == i && id in ids && ids[id] == slots[i] && id !in overflow)
    && (forall id :: id in overflow ==> id in ids && ids[id] == overflow[id])
    && (forall id :: id in ids ==>
          && Live(om, ids[id]) && om[ids[id]].value.id == id && ids[id] != NULL
          && (slots[SlotOf(id, |slots|)] == ids[id] || id in overflow))
  }

  /** The slot of id is taken by id itself. */
  ghost predicate HitsDirect(slots: seq<Ptr>, om: seq<Cell<Order>>, id: OrderId)
    requires |slots| > 0
  {
    var p := slots[SlotOf(id, |slots|)];
    p != NULL && Live(om, p) && om[p].value.id == id
  }

  lemma FoundWhere(slots: seq<Ptr>, overflow: map<OrderId, Ptr>, om: seq<Cell<Order>>, ids: map<OrderId, Ptr>,
                   id: OrderId)
    requires Indexes(slots, overflow, om, ids)
    ensures HitsDirect(slots, om, id) ==> id in ids && ids[id] == slots[SlotOf(id, |slots|)] && id !in overflow
    ensures id in ids ==> HitsDirect(slots, om, id) || id in overflow
    ensures slots[SlotOf(id, |slots|)] != NULL ==> Live(om, slots[SlotOf(id, |slots|)])
    ensures id in overflow ==> id in ids && ids[id] == overflow[id]
  {
  }

  /** The index reads nothing but the ids of indexed orders. */
  lemma IndexesFrame(slots: seq<Ptr>, overflow: map<OrderId, Ptr>, om: seq<Cell<Order>>, om': seq<Cell<Order>>,
                     ids: map<OrderId, Ptr>)
    requires Indexes(slots, overflow, om, ids)
    requires forall id :: id in ids && Live(om, ids[id]) ==>
               Live(om', ids[id]) && om'[ids[id]].value.id == om[ids[id]].value.id
    ensures Indexes(slots, overflow, om', ids)
  {
    forall i | 0 <= i < |slots| && slots[i] != NULL
      ensures Live(om', slots[i]) && om'[slots[i]].value.id == om[slots[i]].value.id
    {
      assert ids[om[slots[i]].value.id] == slots[i];
    }
  }

  lemma InsertKeepsIndex(slots: seq<Ptr>, overflow: map<OrderId, Ptr>, om: seq<Cell<Order>>, ids: map<OrderId, Ptr>,
                         id: OrderId, o: Ptr)
    requires Indexes(slots, overflow, om, ids) && id !in ids && Live(om, o) && om[o].value.id == id
    ensures var h := SlotOf(id, |slots|);
            if slots[h] == NULL then Indexes(slots[h := o], overflow, om, ids[id := o])
            else Indexes(slots, overflow[id := o], om, ids[id := o])
  {
  }

  lemma EraseKeepsIndex(slots: seq<Ptr>, overflow: map<OrderId, Ptr>, om: seq<Cell<Order>>, ids: map<OrderId, Ptr>,
                        id: OrderId)
    requires Indexes(slots, overflow, om, ids)
    ensures HitsDirect(slots, om, id) ==> Indexes(slots[SlotOf(id, |slots|) := NULL], overflow, om, ids - {id})
    ensures !HitsDirect(slots, om, id) && id in overflow ==> Indexes(slots, overflow - {id}, om, ids - {id})
    ensures !HitsDirect(slots, om, id) && id !in overflow ==> id !in ids
  {
  }

  // ---- duplicate ids ----

  /** The test by which insert accepts an id. */
  ghost predicate Accepts(slots: seq<Ptr>, overflow: map<OrderId, Ptr>, om: seq<Cell<Order>>, id: OrderId)
    requires |slots| > 0
  {
    slots[SlotOf(id, |slots|)] == NULL || (!HitsDirect(slots, om, id) && id !in overflow)
  }

  /** insert turns a live id away exactly when the id's direct slot is taken. A live id that sits in overflow
      while its slot is empty is accepted a second time, which is why callers look the id up first. */
  lemma DuplicateIsRefused(slots: seq<Ptr>, overflow: map<OrderId, Ptr>, om: seq<Cell<Order>>, ids: map<OrderId, Ptr>,
                           id: OrderId)
    requires Indexes(slots, overflow, om, ids) && id in ids
    ensures !Accepts(slots, overflow, om, id) <==> slots[id % |slots|] != NULL
  {
    FoundWhere(slots, overflow, om, ids, id);
  }

  /** An absent id is always accepted. */
  lemma AbsentIsAccepted(slots: seq<Ptr>, overflow: map<OrderId, Ptr>, om: seq<Cell<Order>>, ids: map<OrderId, Ptr>,
                         id: OrderId)
    requires Indexes(slots, overflow, om, ids) && id !in ids
    ensures Accepts(slots, overflow, om, id)
  {
    FoundWhere(slots, overflow, om, ids, id);
  }

  class DirectOrderIndex {
    const capacity: nat
    const slots: array<Ptr>
    var overflow: map<OrderId, Ptr>
    var count: nat
    var collisions: nat
    ghost var ids: map<OrderId, Ptr>

    ghost predicate Ok(om: seq<Cell<Order>>)
      reads this, slots
    {
      && slots.Length == capacity > 0
      && Indexes(slots[..], overflow, om, ids)
      && count == |ids|
    }

    constructor (capacity: nat)
      requires capacity > 0
      ensures this.capacity == capacity && ids == map[] && overflow == map[] && collisions == 0 && fresh(slots)
      ensures slots.Length == capacity && forall i :: 0 <= i < capacity ==> slots[i] == NULL
      ensures forall om :: Ok(om)
    {
      this.capacity := capacity;
      slots := new Ptr[capacity](_ => NULL);
      overflow := map[];
      count, collisions := 0, 0;
      ids := map[];
    }

    /** insert: an accepted id takes its direct slot or, if that is occupied, goes to overflow; a refused one
        changes nothing. An id that is not indexed yet is never refused. */
    method Insert(id: OrderId, o: Ptr, orders: MemoryPool<Order>) returns (ok: bool)
      requires Ok(orders.storage[..]) && orders.storage as object != slots
      requires Live(orders.storage[..], o) && orders.storage[o].value.id == id
      modifies this, slots
      ensures ok <==> old(Accepts(slots[..], overflow, orders.storage[..], id))
      ensures id !in old(ids) ==> ok
      ensures id !in old(ids) || !ok ==> Ok(orders.storage[..])
      ensures ids == (if ok then old(ids)[id := o] else old(ids)) && count == old(count) + if ok then 1 else 0
      ensures var h := id % capacity;
              if ok && old(slots[h]) == NULL then slots[..] == old(slots[..])[h := o] && overflow == old(overflow)
              else slots[..] == old(slots[..]) && overflow == if ok then old(overflow)[id := o] else old(overflow)
      ensures collisions == old(collisions) + if ok && old(slots[id % capacity]) != NULL then 1 else 0
    {
      hide Indexes;
      ghost var om := orders.storage[..];
      FoundWhere(slots[..], overflow, om, ids, id);
      if id !in ids {
        AbsentIsAccepted(slots[..], overflow, om, ids, id);
        InsertKeepsIndex(slots[..], overflow, om, ids, id, o);
      }
      var h := SlotOf(id, capacity);
      if slots[h] == NULL {
        slots[h] := o;
        count := count + 1;
        ids := ids[id := o];
        return true;
      }
      if orders.storage[slots[h]].value.id == id {
        return false;
      }
      if id in overflow {
        return false;
      }
      overflow := overflow[id := o];
      count := count + 1;
      collisions := collisions + 1;
      ids := ids[id := o];
      return true;
    }

    /** find: the direct slot if it holds this id, otherwise overflow. */
    function Find(id: OrderId, orders: MemoryPool<Order>): (o: Ptr)
      requires Ok(orders.storage[..])
      reads this, slots, orders, orders.storage
      ensures o == if id in ids then ids[id] else NULL
    {
      FoundWhere(slots[..], overflow, orders.storage[..], ids, id);
      var p := slots[SlotOf(id, capacity)];
      if p != NULL && orders.storage[p].value.id == id then p
      else if id in overflow then overflow[id]
      else NULL
    }

    /** erase: reads the id of the order in the direct slot, so the order must not have been released yet. */
    method Erase(id: OrderId, orders: MemoryPool<Order>) returns (found: bool)
      requires Ok(orders.storage[..]) && orders.storage as object != slots
      modifies this, slots
      ensures Ok(orders.storage[..]) && ids == old(ids) - {id}
      ensures (found <==> id in old(ids)) && collisions == old(collisions)
      ensures if old(HitsDirect(slots[..], orders.storage[..], id))
              then slots[..] == old(slots[..])[id % capacity := NULL] && overflow == old(overflow)
              else slots[..] == old(slots[..]) && overflow == old(overflow) - {id}
    {
      hide Indexes;
      ghost var om := orders.storage[..];
      FoundWhere(slots[..], overflow, om, ids, id);
      EraseKeepsIndex(slots[..], overflow, om, ids, id);
      var h := SlotOf(id, capacity);
      var p := slots[h];
      if p != NULL && orders.storage[p].value.id == id {
        slots[h] := NULL;
        count := count - 1;
        ids := ids - {id};
        return true;
      }
      if id in overflow {
        overflow := overflow - {id};
        count := count - 1;
        ids := ids - {id};
        return true;
      }
      return false;
    }

    /** clear: nothing is indexed any more, whatever the orders hold. */
    method Clear(ghost om: seq<Cell<Order>>)
      requires Ok(om)
      modifies this, slots
      ensures ids == map[] && overflow == map[] && count == 0 && collisions == old(collisions)
      ensures forall any: seq<Cell<Order>> :: Ok(any)
    {
      for i := 0 to slots.Length
        invariant collisions == old(collisions) && forall j :: 0 <= j < i ==> slots[j] == NULL
      {
        slots[i] := NULL;
      }
      overflow := map[];
      count := 0;
      ids := map[];
    }

    /** Both parts together: the direct slots in use and the overflow entries add up to count. */
    ghost function Occupied(): set<nat>
      reads this, slots
    {
      set i | 0 <= i < slots.Length && slots[i] != NULL
    }

    lemma CountIsSum(om: seq<Cell<Order>>)
      requires Ok(om)
      ensures count == |Occupied()| + |overflow|
    {
      var direct := ids.Keys - overflow.Keys;
      SlotsMatchIds(slots[..], overflow, om, ids, Occupied(), direct);
      assert overflow.Keys <= ids.Keys;
      assert ids.Keys == direct + overflow.Keys;
    }
  }

  /** How a live id comes to be accepted a second time: order 7 is inserted while order 0 has its slot, order 0
      leaves, and order 7, still in overflow, finds the slot empty. */
  method DuplicateSlipsIn() returns (live: bool, again: bool)
    ensures live && again
  {
    var orders := new MemoryPool<Order>(3);
    orders.storage[0] := Object(Order(0, 1, 100, 10, Buy, 0, NO_MPID), NULL, NULL);
    orders.storage[1] := Object(Order(7, 1, 100, 10, Buy, 0, NO_MPID), NULL, NULL);
    orders.storage[2] := Object(Order(7, 1, 101, 10, Buy, 1, NO_MPID), NULL, NULL);
    live, again := Resubmit(orders);
  }

  method Resubmit(orders: MemoryPool<Order>) returns (live: bool, again: bool)
    requires orders.storage.Length == 3 && orders.storage[0].Object? && orders.storage[1].Object?
             && orders.storage[2].Object?
    requires orders.storage[0].value.id == 0 && orders.storage[1].value.id == orders.storage[2].value.id == 7
    ensures live && again
  {
    hide Indexes;
    ghost var om := orders.storage[..];
    var index := new DirectOrderIndex(1);
    var _ := index.Insert(0, 0, orders);
    OneSlot(index.slots[..], 0, om, 0);
    var _ := index.Insert(7, 1, orders);
    OneSlot(index.slots[..], 0, om, 0);
    var _ := index.Erase(0, orders);
    live := index.Find(7, orders) != NULL;
    again := index.Insert(7, 2, orders);
  }

  lemma OneSlot(slots: seq<Ptr>, p: Ptr, om: seq<Cell<Order>>, id: OrderId)
    requires slots == [p] && Live(om, p) && om[p].value.id == id && p != NULL
    ensures HitsDirect(slots, om, id)
  {
  }

  lemma {:induction false} SlotsMatchIds(slots: seq<Ptr>, overflow: map<OrderId, Ptr>, om: seq<Cell<Order>>,
                                         ids: map<OrderId, Ptr>, used: set<nat>, direct: set<OrderId>)
    requires Indexes(slots, overflow, om, ids)
    requires forall i :: i in used ==> i < |slots| && slots[i] != NULL && om[slots[i]].value.id in direct
    requires forall id :: id in direct ==> id in ids && id !in overflow && SlotOf(id, |slots|) in used
    ensures |used| == |direct|
    decreases used
  {
    if used == {} {
      assert direct == {};
    } else {
      var i :| i in used;
      var id := om[slots[i]].value.id;
      SlotsMatchIds(slots, overflow, om, ids, used - {i}, direct - {id});
    }
  }
}
