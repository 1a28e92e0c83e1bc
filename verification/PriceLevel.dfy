/** The first-in first-out queue of orders inside one price level. Levels and orders live in pool slots, so
    the methods take the two pools and the slot of the level. */
module PriceLevels {
  import opened Types
  import opened IntrusiveLists
  import opened MemoryPools

  // ---- the queue as a value ----

  ghost function SharesAt(om: seq<Cell<Order>>, p: Ptr): nat {
    if Live(om, p) then om[p].value.shares else 0
  }

  ghost function SumShares(om: seq<Cell<Order>>, q: seq<Ptr>): nat {
    if q == [] then 0 else SumShares(om, q[..|q| - 1]) + SharesAt(om, q[|q| - 1])
  }

  /** The level record describes exactly the queue q: its ends, its length and its summed shares. */
  ghost predicate Describes(om: seq<Cell<Order>>, l: Level, q: seq<Ptr>) {
    && Linked(om, q)
    && l.head == At(q, 0) && l.tail == At(q, |q| - 1)
    && l.count == |q| && l.total == SumShares(om, q)
  }

  /** A level record whose aggregates and queue ends may have moved, but not its price or side or its place in
      the list of levels. */
  ghost predicate SameLevel(a: Cell<Level>, b: Cell<Level>) {
    && a.Object? && b.Object? && b.next == a.next && b.prev == a.prev
    && b.value.price == a.value.price && b.value.side == a.value.side
  }

  lemma {:induction false} SumFrame(om: seq<Cell<Order>>, om': seq<Cell<Order>>, q: seq<Ptr>)
    requires forall k :: 0 <= k < |q| ==> SharesAt(om', q[k]) == SharesAt(om, q[k])
    ensures SumShares(om', q) == SumShares(om, q)
  {
    if q != [] {
      SumFrame(om, om', q[..|q| - 1]);
    }
  }

  lemma RelinkedSum(om: seq<Cell<Order>>, om': seq<Cell<Order>>, touched: seq<Ptr>, q: seq<Ptr>)
    requires Relinked(om, om', touched)
    ensures SumShares(om', q) == SumShares(om, q)
  {
    SumFrame(om, om', q);
  }

  lemma {:induction false} SumBound(om: seq<Cell<Order>>, q: seq<Ptr>)
    ensures SumShares(om, q) <= |q| * 0xFFFF_FFFF
  {
    if q != [] {
      SumBound(om, q[..|q| - 1]);
    }
  }

  lemma {:induction false} SumWithout(om: seq<Cell<Order>>, q: seq<Ptr>, k: nat)
    requires k < |q|
    ensures SumShares(om, q[..k] + q[k + 1..]) + SharesAt(om, q[k]) == SumShares(om, q)
  {
    var r := q[..k] + q[k + 1..];
    if k == |q| - 1 {
      assert r == q[..|q| - 1];
    } else {
      SumWithout(om, q[..|q| - 1], k);
      assert r[..|r| - 1] == q[..|q| - 1][..k] + q[..|q| - 1][k + 1..];
    }
  }

  /** Changing the shares of one order of the queue changes the sum by as much. */
  lemma SumReduced(om: seq<Cell<Order>>, om': seq<Cell<Order>>, q: seq<Ptr>, k: nat)
    requires Distinct(q) && k < |q|
    requires forall p :: p != q[k] ==> SharesAt(om', p) == SharesAt(om, p)
    ensures SumShares(om', q) - SharesAt(om', q[k]) == SumShares(om, q) - SharesAt(om, q[k])
  {
    SumWithout(om, q, k);
    SumWithout(om', q, k);
    SumFrame(om, om', q[..k] + q[k + 1..]);
  }

  lemma SumAppend(om: seq<Cell<Order>>, q: seq<Ptr>, o: Ptr)
    ensures SumShares(om, q + [o]) == SumShares(om, q) + SharesAt(om, o)
  {
    assert (q + [o])[..|q|] == q;
  }

  lemma AppendKeepsQueue(om: seq<Cell<Order>>, q: seq<Ptr>, o: Ptr)
    requires Linked(om, q) && Live(om, o) && o !in q
    ensures if q == [] then At(q, |q| - 1) == NULL else Live(om, At(q, |q| - 1)) && At(q, |q| - 1) != o
    ensures var om' := Spliced(om, At(q, |q| - 1), o, NULL);
            && Linked(om', q + [o]) && Relinked(om, om', q + [o])
            && SumShares(om', q + [o]) == SumShares(om, q) + om[o].value.shares
  {
    hide Spliced, Linked, Relinked, SumShares;
    InsertKeepsLinked(om, q, |q|, o);
    var om' := Spliced(om, At(q, |q| - 1), o, NULL);
    assert q[..|q|] + [o] + q[|q|..] == q + [o];
    SumAppend(om, q, o);
    RelinkedSum(om, om', q + [o], q + [o]);
  }

  lemma UnlinkKeepsQueue(om: seq<Cell<Order>>, q: seq<Ptr>, k: nat)
    requires Linked(om, q) && k < |q|
    ensures Live(om, q[k]) && om[q[k]].next == At(q, k + 1) && om[q[k]].prev == At(q, k - 1)
    ensures if k + 1 == |q| then At(q, k + 1) == NULL else Live(om, At(q, k + 1)) && At(q, k + 1) != q[k]
    ensures if k == 0 then At(q, k - 1) == NULL else Live(om, At(q, k - 1)) && At(q, k - 1) != q[k]
    ensures var om' := Unlinked(om, q[k]);
            && Linked(om', q[..k] + q[k + 1..]) && Relinked(om, om', q)
            && SumShares(om', q[..k] + q[k + 1..]) + om[q[k]].value.shares == SumShares(om, q)
  {
    hide Unlinked, Linked, Relinked, SumShares;
    UnlinkKeepsLinked(om, q, k);
    SumWithout(om, q, k);
    RelinkedSum(om, Unlinked(om, q[k]), q, q[..k] + q[k + 1..]);
  }

  // ---- the operations in place ----

  /** Order::reduce: takes qty shares, or all of them if there are no more, and tells whether none is left. */
  method Reduce(orders: MemoryPool<Order>, o: Ptr, qty: u32) returns (dead: bool)
    requires Live(orders.storage[..], o)
    modifies orders.storage
    ensures dead <==> qty >= old(orders.storage[o].value.shares)
    ensures orders.storage[..] == old(orders.storage[..])[o := Reduced(old(orders.storage[o]), qty)]
  {
    var x := orders.storage[o].value;
    if qty >= x.shares {
      orders.storage[o] := orders.storage[o].(value := x.(shares := 0));
      return true;
    }
    orders.storage[o] := orders.storage[o].(value := x.(shares := x.shares - qty));
    return false;
  }

  function Filled(shares: u32, qty: u32): u32 {
    if qty >= shares then shares else qty
  }

  function Reduced(c: Cell<Order>, qty: u32): Cell<Order>
    requires c.Object?
  {
    c.(value := c.value.(shares := c.value.shares - Filled(c.value.shares, qty)))
  }

  /** Taking shares from one order of the queue and from the level's total together. */
  lemma ReducedQueue(om: seq<Cell<Order>>, l: Level, q: seq<Ptr>, k: nat, qty: u32)
    requires Describes(om, l, q) && k < |q| && Live(om, q[k])
    ensures Filled(om[q[k]].value.shares, qty) <= l.total
    ensures var filled := Filled(om[q[k]].value.shares, qty);
            Describes(om[q[k] := Reduced(om[q[k]], qty)], l.(total := l.total - filled), q)
  {
    hide Linked;
    var o := q[k];
    var om' := om[o := Reduced(om[o], qty)];
    SumWithout(om, q, k);
    LinkedDistinct(om, q);
    LinkedFrame(om, om', q);
    SumReduced(om, om', q, k);
  }

  /** push_back: o becomes the youngest order of level l. */
  method PushBack(levels: MemoryPool<Level>, orders: MemoryPool<Order>, l: Ptr, o: Ptr, ghost q: seq<Ptr>)
    requires Live(levels.storage[..], l) && Describes(orders.storage[..], levels.storage[l].value, q)
    requires Live(orders.storage[..], o) && o !in q && |q| < 0xFFFF_FFFF
    modifies levels.storage, orders.storage
    ensures Relinked(old(orders.storage[..]), orders.storage[..], q + [o])
    ensures levels.storage[..] == old(levels.storage[..])[l := levels.storage[l]]
    ensures SameLevel(old(levels.storage[l]), levels.storage[l])
    ensures Describes(orders.storage[..], levels.storage[l].value, q + [o])
  {
    hide Linked, Relinked, SumShares;
    ghost var om := orders.storage[..];
    AppendKeepsQueue(om, q, o);
    SumBound(om, q);
    var v := levels.storage[l].value;
    orders.storage[o] := orders.storage[o].(next := NULL);
    orders.storage[o] := orders.storage[o].(prev := v.tail);
    var first := v.head;
    if v.tail != NULL {
      orders.storage[v.tail] := orders.storage[v.tail].(next := o);
    } else {
      first := o;
    }
    assert orders.storage[..] == Spliced(om, v.tail, o, NULL);
    levels.storage[l] := levels.storage[l].(
      value := v.(head := first, tail := o, total := v.total + orders.storage[o].value.shares, count := v.count + 1));
  }

  /** unlink: the order at position k leaves the queue. The share total is left alone, so the caller deducts
      the shares the order still has beforehand. */
  method Unlink(levels: MemoryPool<Level>, orders: MemoryPool<Order>, l: Ptr, o: Ptr, ghost q: seq<Ptr>, ghost k: nat)
    requires Live(levels.storage[..], l) && Linked(orders.storage[..], q) && k < |q| && q[k] == o
    requires levels.storage[l].value.head == At(q, 0) && levels.storage[l].value.tail == At(q, |q| - 1)
    requires levels.storage[l].value.count == |q|
    requires levels.storage[l].value.total + SharesAt(orders.storage[..], o) == SumShares(orders.storage[..], q)
    modifies levels.storage, orders.storage
    ensures Relinked(old(orders.storage[..]), orders.storage[..], q)
    ensures levels.storage[..] == old(levels.storage[..])[l := levels.storage[l]]
    ensures SameLevel(old(levels.storage[l]), levels.storage[l])
    ensures Describes(orders.storage[..], levels.storage[l].value, q[..k] + q[k + 1..])
  {
    hide Linked, Relinked, SumShares;
    ghost var om := orders.storage[..];
    UnlinkKeepsQueue(om, q, k);
    var v := levels.storage[l].value;
    var before, after := orders.storage[o].prev, orders.storage[o].next;
    var first, last := v.head, v.tail;
    if before != NULL {
      orders.storage[before] := orders.storage[before].(next := after);
    } else {
      first := after;
    }
    if after != NULL {
      orders.storage[after] := orders.storage[after].(prev := before);
    } else {
      last := before;
    }
    orders.storage[o] := orders.storage[o].(next := NULL);
    orders.storage[o] := orders.storage[o].(prev := NULL);
    assert orders.storage[..] == Unlinked(om, o);
    levels.storage[l] := levels.storage[l].(value := v.(head := first, tail := last, count := v.count - 1));
  }

  /** unlink_and_deduct: the shares the order still has leave the level's total together with the order. */
  method UnlinkAndDeduct(levels: MemoryPool<Level>, orders: MemoryPool<Order>, l: Ptr, o: Ptr,
                         ghost q: seq<Ptr>, ghost k: nat)
    requires Live(levels.storage[..], l) && Describes(orders.storage[..], levels.storage[l].value, q)
    requires k < |q| && q[k] == o
    modifies levels.storage, orders.storage
    ensures Relinked(old(orders.storage[..]), orders.storage[..], q)
    ensures levels.storage[..] == old(levels.storage[..])[l := levels.storage[l]]
    ensures SameLevel(old(levels.storage[l]), levels.storage[l])
    ensures Describes(orders.storage[..], levels.storage[l].value, q[..k] + q[k + 1..])
  {
    hide Linked, Relinked, SumShares;
    ghost var om := orders.storage[..];
    UnlinkKeepsQueue(om, q, k);
    var v := levels.storage[l].value;
    levels.storage[l] := levels.storage[l].(value := v.(total := v.total - orders.storage[o].value.shares));
    assert orders.storage[..] == om;
    Unlink(levels, orders, l, o, q, k);
  }
}
