/** Per-instrument resting state over the two shared pools. Every operation returns the code the engine
    dispatches on; what it does to the book is stated on the book's view. */
module OrderBooks {
  import opened Types
  import opened FlatHashMaps
  import opened IntrusiveLists
  import opened MemoryPools
  import opened PriceLevels
  import opened BookShapes
  import opened VisitOrders

  /** Order p waits somewhere in the book. */
  ghost predicate InBook(v: BookView, p: Ptr) {
    exists l :: l in v.fifo && p in v.fifo[l]
  }

  /** o has joined the end of level l, the level of price px, which may be new. */
  ghost predicate Arrived(v: BookView, v': BookView, s: Side, px: u32, l: Ptr, o: Ptr) {
    && v'.fifo == v.fifo[l := QueueOf(v.fifo, l) + [o]]
    && v'.On(s).table == v.On(s).table[px := l]
    && v'.On(Opposite(s)).table == v.On(Opposite(s)).table
    && v'.live == v.live + 1
  }

  /** o has left its level; if it was the last order there, the level is gone. */
  ghost predicate Departed(v: BookView, v': BookView, s: Side, px: u32, l: Ptr, o: Ptr) {
    var r := Without(QueueOf(v.fifo, l), o);
    && (if r == [] then v'.fifo == v.fifo - {l} && v'.On(s).table == v.On(s).table - {px}
        else v'.fifo == v.fifo[l := r] && v'.On(s).table == v.On(s).table)
    && v'.On(Opposite(s)).table == v.On(Opposite(s)).table
    && v'.live == v.live - 1
  }

  /** Orders keep their data, and slots outside the book (other than o) are left alone. */
  ghost predicate OrdersKept(om: seq<Cell<Order>>, om': seq<Cell<Order>>, v: BookView, o: Ptr) {
    && |om'| == |om|
    && (forall p :: Live(om, p) && p != o ==> Live(om', p) && om'[p].value == om[p].value)
    && (forall p :: 0 <= p < |om| && p != o && !InBook(v, p) ==> om'[p] == om[p])
  }

  /** Level slots of other books are left alone. */
  ghost predicate LevelsKept(lm: seq<Cell<Level>>, lm': seq<Cell<Level>>, v: BookView, l: Ptr) {
    |lm'| == |lm| && forall p :: 0 <= p < |lm| && p != l && p !in v.fifo ==> lm'[p] == lm[p]
  }

  /** What an operation on one book can see: both memories, the book and the free levels. */
  datatype Scene = Scene(om: seq<Cell<Order>>, lm: seq<Cell<Level>>, v: BookView, free: seq<Ptr>)

  /** add_order of o: 1 when o joins the level of its price, 2 when it opens the level in the first free slot, 0
      when it would have to and no slot is free. */
  ghost predicate AddEffect(s: Scene, s': Scene, o: Ptr, rc: int, l: Ptr) {
    && Live(s.om, o) && Live(s'.om, o) && s'.om[o].value == s.om[o].value
    && rc in {0, 1, 2}
    && var x := s.om[o].value;
    && var table := s.v.On(x.side).table;
    && (rc == 1 <==> x.price in table)
    && (rc == 0 <==> x.price !in table && s.free == [])
    && (rc == 0 ==> s' == s)
    && (rc != 0 ==> Arrived(s.v, s'.v, x.side, x.price, l, o))
    && (rc == 1 ==> l == table[x.price] && s'.free == s.free)
    && (rc == 2 ==> l == s.free[0] && l !in s.v.fifo && l !in s'.free && s'.free == s.free[1..])
    && OrdersKept(s.om, s'.om, s.v, o)
    && LevelsKept(s.lm, s'.lm, s.v, l)
  }

  /** o leaves level l: 1 when the level remains, 2 when it goes and its slot is freed. */
  ghost predicate LeaveEffect(s: Scene, s': Scene, o: Ptr, rc: int, l: Ptr) {
    && Live(s.om, o) && Live(s'.om, o)
    && var x := s.om[o].value;
    && x.price in s.v.On(x.side).table && l == s.v.On(x.side).table[x.price]
    && l in s.v.fifo && o in s.v.fifo[l]
    && Departed(s.v, s'.v, x.side, x.price, l, o)
    && rc == (if Without(s.v.fifo[l], o) == [] then 2 else 1)
    && s'.free == (if rc == 2 then [l] else []) + s.free
    && OrdersKept(s.om, s'.om, s.v, o)
    && LevelsKept(s.lm, s'.lm, s.v, l)
  }

  ghost predicate RemoveEffect(s: Scene, s': Scene, o: Ptr, rc: int, l: Ptr) {
    LeaveEffect(s, s', o, rc, l) && s'.om[o].value == s.om[o].value
  }

  /** execute_order of qty shares of o: 0 when shares remain, otherwise o leaves. */
  ghost predicate ExecuteEffect(s: Scene, s': Scene, o: Ptr, qty: u32, rc: int, l: Ptr) {
    && Live(s.om, o) && Live(s'.om, o)
    && var x := s.om[o].value;
    && s'.om[o].value == x.(shares := x.shares - Filled(x.shares, qty))
    && (rc == 0 <==> qty < x.shares)
    && (rc == 0 ==>
          && l in s.v.fifo
          && s'.v == s.v && s'.free == s.free && s'.om == s.om[o := Reduced(s.om[o], qty)]
          && OrdersKept(s.om, s'.om, s.v, o) && LevelsKept(s.lm, s'.lm, s.v, l))
    && (rc != 0 ==> LeaveEffect(s, s', o, rc, l))
  }

  /** What add_order needs of the price of x: it is not the table's sentinel, and a level that has to be opened
      either fits the table or finds no free slot. */
  ghost predicate HasRoom(v: BookView, x: Order, capacity: nat, free: seq<Ptr>) {
    var table := v.On(x.side).table;
    x.price != EMPTY_KEY && (x.price in table || |table| < capacity || free == [])
  }

  lemma AddKeepsOrders(s: Scene, s': Scene, o: Ptr, rc: int, l: Ptr)
    requires AddEffect(s, s', o, rc, l)
    ensures OrdersKept(s.om, s'.om, s.v, o) && Live(s.om, o) && Live(s'.om, o) && s'.om[o].value == s.om[o].value
  {
  }

  lemma RemoveKeepsOrders(s: Scene, s': Scene, o: Ptr, rc: int, l: Ptr)
    requires RemoveEffect(s, s', o, rc, l)
    ensures OrdersKept(s.om, s'.om, s.v, o) && Live(s.om, o) && Live(s'.om, o) && s'.om[o].value == s.om[o].value
  {
  }

  lemma ExecuteKeepsOrders(s: Scene, s': Scene, o: Ptr, qty: u32, rc: int, l: Ptr)
    requires ExecuteEffect(s, s', o, qty, rc, l)
    ensures OrdersKept(s.om, s'.om, s.v, o) && Live(s.om, o) && Live(s'.om, o) && s'.om[o].value.id == s.om[o].value.id
  {
  }

  class OrderBook {
    ghost const home: u16
    const bidMap: FlatHashMap<Ptr>
    const askMap: FlatHashMap<Ptr>
    var bestBid: Ptr
    var bestAsk: Ptr
    var bidLevelCount: int
    var askLevelCount: int
    var liveOrderCount: int
    ghost var bids: seq<Ptr>
    ghost var asks: seq<Ptr>
    ghost var fifo: map<Ptr, seq<Ptr>>

    ghost function Repr(): set<object> {
      {this, bidMap, bidMap.keys, bidMap.values, askMap, askMap.keys, askMap.values}
    }

    ghost function View(): BookView
      reads Repr()
    {
      BookView(SideView(bestBid, bidMap.contents, bidLevelCount, bids),
               SideView(bestAsk, askMap.contents, askLevelCount, asks), liveOrderCount, fifo)
    }

    ghost predicate Valid()
      reads Repr()
    {
      && bidMap != askMap
      && {bidMap.keys as object, bidMap.values} !! {askMap.keys as object, askMap.values}
      && bidMap.nil == NULL && askMap.nil == NULL
      && bidMap.keys.Length == askMap.keys.Length
      && bidMap.Valid() && askMap.Valid()
    }

    function MapCapacity(): nat {
      bidMap.keys.Length
    }

    /** The book's own storage and the pools do not overlap. */
    ghost predicate Apart(levels: MemoryPool<Level>, orders: MemoryPool<Order>) {
      && Repr() !! {levels as object, levels.storage, orders, orders.storage}
      && levels.storage as object != orders.storage as object
    }

    ghost predicate Ok(levels: MemoryPool<Level>, orders: MemoryPool<Order>)
      reads Repr(), levels, levels.storage, orders.storage
    {
      Valid() && Apart(levels, orders) && levels.Valid() && BookOk(orders.storage[..], levels.storage[..], home, View())
    }

    ghost function Now(levels: MemoryPool<Level>, orders: MemoryPool<Order>): Scene
      reads Repr(), levels, levels.storage, orders.storage
    {
      Scene(orders.storage[..], levels.storage[..], View(), levels.free)
    }

    constructor (ghost home: u16, mapCapacity: nat, hash: u32 -> nat)
      requires mapCapacity > 0
      ensures this.home == home && Valid() && View() == EMPTY_BOOK && MapCapacity() == mapCapacity
      ensures fresh(Repr())
    {
      this.home := home;
      bidMap := new FlatHashMap<Ptr>(mapCapacity, hash, NULL);
      askMap := new FlatHashMap<Ptr>(mapCapacity, hash, NULL);
      bestBid, bestAsk := NULL, NULL;
      bidLevelCount, askLevelCount, liveOrderCount := 0, 0, 0;
      bids, asks, fifo := [], [], map[];
    }

    method FindLevel(s: Side, px: u32) returns (l: Ptr)
      requires Valid() && px != EMPTY_KEY
      ensures l == if px in View().On(s).table then View().On(s).table[px] else NULL
    {
      if s == Buy {
        l := bidMap.Find(px);
      } else {
        l := askMap.Find(px);
      }
    }

    /** The walk of insert_level_sorted: from the best price to the first level that is not better. */
    method SortedPosition(s: Side, l: Ptr, levels: MemoryPool<Level>) returns (prev: Ptr, cur: Ptr, ghost k: nat)
      requires var v := View().On(s);
               && v.best == At(v.list, 0) && Linked(levels.storage[..], v.list)
                   && Ordered(levels.storage[..], s, v.list)
               && Live(levels.storage[..], l)
               && forall i :: 0 <= i < |v.list| && Live(levels.storage[..], v.list[i]) ==>
                    levels.storage[v.list[i]].value.price != levels.storage[l].value.price
      ensures k <= |View().On(s).list| && prev == At(View().On(s).list, k - 1) && cur == At(View().On(s).list, k)
      ensures SortsAt(levels.storage[..], s, View().On(s).list, levels.storage[l].value.price, k)
    {
      hide Linked;
      ghost var lm, list := levels.storage[..], View().On(s).list;
      k := 0;
      prev, cur := NULL, if s == Buy then bestBid else bestAsk;
      while cur != NULL && Before(s, levels.storage[cur].value.price, levels.storage[l].value.price)
        invariant k <= |list| && cur == At(list, k) && prev == At(list, k - 1)
        invariant forall i :: 0 <= i < k ==> Before(s, lm[list[i]].value.price, levels.storage[l].value.price)
        decreases |list| - k
      {
        NextIsLive(lm, list, k);
        prev, cur := cur, levels.storage[cur].next;
        k := k + 1;
      }
      if k < |list| {
        NextIsLive(lm, list, k);
      }
    }

    /** insert_level_sorted: the new level is linked in front of the first level that is not better. */
    method InsertLevelSorted(s: Side, l: Ptr, levels: MemoryPool<Level>) returns (ghost k: nat)
      requires Repr() !! {levels as object, levels.storage}
      requires var v := View().On(s);
               && v.best == At(v.list, 0) && Linked(levels.storage[..], v.list)
                   && Ordered(levels.storage[..], s, v.list)
               && Live(levels.storage[..], l) && l !in v.list
               && forall i :: 0 <= i < |v.list| && Live(levels.storage[..], v.list[i]) ==>
                    levels.storage[v.list[i]].value.price != levels.storage[l].value.price
      modifies `bestBid, `bestAsk, `bids, `asks, levels.storage
      ensures k <= |old(View()).On(s).list|
      ensures SortsAt(old(levels.storage[..]), s, old(View()).On(s).list, old(levels.storage[l].value.price), k)
      ensures var v, lm, px := old(View()).On(s), old(levels.storage[..]), old(levels.storage[l].value.price);
              && (forall i :: 0 <= i < |v.list| ==> Live(lm, v.list[i]))
              && (s == Buy ==> forall i :: 0 <= i < |v.list| ==> (i < k <==> lm[v.list[i]].value.price > px))
              && (s == Sell ==> forall i :: 0 <= i < |v.list| ==> (i < k <==> lm[v.list[i]].value.price < px))
      ensures var v := old(View()).On(s);
              var lm := old(levels.storage[..]);
              && (At(v.list, k - 1) != NULL ==> Live(lm, At(v.list, k - 1)))
              && (At(v.list, k) != NULL ==> Live(lm, At(v.list, k)))
              && levels.storage[..] == Spliced(lm, At(v.list, k - 1), l, At(v.list, k))
              && View() == Sorted(old(View()), s, k, l)
    {
      hide Linked, Ordered, SortsAt, Spliced, Relinked, FlatHashMap.Valid;
      ghost var lm, v := levels.storage[..], View().On(s);
      var prev, cur;
      prev, cur, k := SortedPosition(s, l, levels);
      SortsNumerically(lm, s, v.list, levels.storage[l].value.price, k);
      InsertKeepsLinked(lm, v.list, k, l);
      Splice(levels.storage, prev, l, cur);
      if prev == NULL {
        if s == Buy { bestBid := l; } else { bestAsk := l; }
      }
      if s == Buy { bids := InsertedAt(bids, k, l); } else { asks := InsertedAt(asks, k, l); }
    }

    /** The part of add_order that makes a level for a price that has none. */
    method NewLevel(s: Side, px: u32, levels: MemoryPool<Level>, orders: MemoryPool<Order>) returns (l: Ptr)
      requires Ok(levels, orders) && px != EMPTY_KEY
      requires px !in View().On(s).table && (|View().On(s).table| < MapCapacity() || levels.free == [])
      modifies Repr(), levels, levels.storage
      ensures Valid() && levels.Valid()
      ensures l == NULL <==> old(levels.free) == []
      ensures l == NULL ==> View() == old(View()) && levels.storage[..] == old(levels.storage[..])
                            && levels.free == old(levels.free)
      ensures l != NULL ==>
                && l == old(levels.free)[0] && levels.free == old(levels.free)[1..]
                && l !in old(View()).fifo && l !in levels.free && Live(levels.storage[..], l)
                && BookShape(orders.storage[..], levels.storage[..], home, View())
                && LevelsKept(old(levels.storage[..]), levels.storage[..], old(View()), l)
                && View().fifo == old(View()).fifo[l := []]
                && View().On(s).table == old(View()).On(s).table[px := l]
                && View().On(Opposite(s)).table == old(View()).On(Opposite(s)).table
                && View().live == old(View()).live
    {
      hide Linked, SideOk, Waiting, Walk, FreeList, BookShape;
      ghost var om, lm := orders.storage[..], levels.storage[..];
      l := levels.Acquire();
      if l == NULL {
        return;
      }
      FreeIsNotInBook(om, lm, home, View(), old(levels.head), old(levels.free));
      levels.storage[l] := Object(Level(px, 0, NULL, NULL, 0, s), NULL, NULL);
      ghost var k := SortIn(s, px, l, levels, om, lm);
    }

    /** Link a freshly constructed level into the list and the table of its side. */
    method SortIn(s: Side, px: u32, l: Ptr, levels: MemoryPool<Level>,
                  ghost om: seq<Cell<Order>>, ghost lm: seq<Cell<Level>>) returns (ghost k: nat)
      requires Valid() && Repr() !! {levels as object, levels.storage} && px != EMPTY_KEY
      requires px !in View().On(s).table && |View().On(s).table| < MapCapacity()
      requires levels.capacity == levels.storage.Length
      requires BookShape(om, lm, home, View()) && FreeList(lm, levels.head, levels.free)
      requires |lm| == levels.storage.Length && 0 <= l < |lm| && l !in View().fifo && l !in levels.free
      requires levels.storage[l] == Object(Level(px, 0, NULL, NULL, 0, s), NULL, NULL)
      requires levels.storage[..] == lm[l := levels.storage[l]]
      modifies Repr(), levels.storage
      ensures Valid() && FreeList(levels.storage[..], levels.head, levels.free)
      ensures k <= |old(View()).On(s).list| && View() == WithLevel(old(View()), s, px, k, l)
      ensures BookShape(om, levels.storage[..], home, View()) && Live(levels.storage[..], l)
      ensures LevelsKept(lm, levels.storage[..], old(View()), l)
    {
      hide Linked, SideOk, Waiting, Walk, Spliced, FreeList, BookShape, Relinked, Ordered, Mapped, LevelsKept,
           FlatHashMap.Valid, Sorted, Tabled, WithLevel, SortsAt;
      ghost var lm1, v := levels.storage[..], View();
      ReadyToSort(om, lm, lm1, home, v, s, px, l);
      k := Enlist(s, px, l, levels);
      SortsAtFrame(lm, lm1, s, v.On(s).list, px, k, l);
      LevelInserted(om, lm, lm1, home, v, s, px, k, l);
      ListedLevels(om, lm, home, v);
      NewLevelFrame(lm, lm1, levels.storage[..], v, s, k, l, levels.head, levels.free);
    }

    /** First the list, then the price table; the new level has no orders yet. */
    method Enlist(s: Side, px: u32, l: Ptr, levels: MemoryPool<Level>) returns (ghost k: nat)
      requires Valid() && Repr() !! {levels as object, levels.storage} && px != EMPTY_KEY
      requires px !in View().On(s).table && |View().On(s).table| < MapCapacity()
      requires var v := View().On(s);
               && v.best == At(v.list, 0) && Linked(levels.storage[..], v.list)
                   && Ordered(levels.storage[..], s, v.list)
               && Live(levels.storage[..], l) && levels.storage[l].value.price == px && l !in v.list
               && forall i :: 0 <= i < |v.list| && Live(levels.storage[..], v.list[i]) ==>
                    levels.storage[v.list[i]].value.price != px
      modifies Repr(), levels.storage
      ensures k <= |old(View()).On(s).list|
      ensures Valid() && View() == WithLevel(old(View()), s, px, k, l)
      ensures SortsAt(old(levels.storage[..]), s, old(View()).On(s).list, px, k)
      ensures var v := old(View()).On(s);
              var lm := old(levels.storage[..]);
              && (At(v.list, k - 1) != NULL ==> Live(lm, At(v.list, k - 1)))
              && (At(v.list, k) != NULL ==> Live(lm, At(v.list, k)))
              && levels.storage[..] == Spliced(lm, At(v.list, k - 1), l, At(v.list, k))
    {
      hide Linked, Spliced, Ordered, FlatHashMap.Valid, Sorted, Tabled, WithLevel, SortsAt;
      ghost var v := View();
      k := InsertLevelSorted(s, l, levels);
      SortedThenTabled(v, s, px, k, l);
      InsertLevelIntoMap(s, px, l);
      fifo := fifo[l := []];
      assert View() == WithLevel(v, s, px, k, l);
    }

    method InsertLevelIntoMap(s: Side, px: u32, l: Ptr)
      requires Valid() && px != EMPTY_KEY
      requires px !in View().On(s).table && |View().On(s).table| < MapCapacity()
      modifies this`bidLevelCount, this`askLevelCount, bidMap, bidMap.keys, bidMap.values, askMap, askMap.keys,
          askMap.values
      ensures Valid()
      ensures View() == Tabled(old(View()), s, px, l)
    {
      hide FlatHashMap.Valid;
      if s == Buy {
        var _ := bidMap.Insert(px, l);
        bidLevelCount := bidLevelCount + 1;
      } else {
        var _ := askMap.Insert(px, l);
        askLevelCount := askLevelCount + 1;
      }
    }

    /** add_order: 0 when a new level is needed and the level pool is empty, 1 when the order joins an existing
        level, 2 when it opens a new one. */
    method AddOrder(o: Ptr, levels: MemoryPool<Level>, orders: MemoryPool<Order>) returns (rc: int, ghost l: Ptr)
      requires Ok(levels, orders) && orders.capacity == orders.storage.Length <= 0xFFFF_FFFF
      requires Live(orders.storage[..], o) && orders.storage[o].value.locate == home && !InBook(View(), o)
      requires HasRoom(View(), orders.storage[o].value, MapCapacity(), levels.free)
      modifies Repr(), levels, levels.storage, orders.storage
      ensures Ok(levels, orders)
      ensures AddEffect(old(Now(levels, orders)), Now(levels, orders), o, rc, l)
    {
      hide Linked, SideOk, Waiting, Walk, FreeList, BookShape, Relinked, LevelsKept, OrdersKept, InBook, Arrived,
           FlatHashMap.Valid;
      ghost var om, lm, v := orders.storage[..], levels.storage[..], View();
      var s, px := orders.storage[o].value.side, orders.storage[o].value.price;
      var lvl := FindLevel(s, px);
      var created := false;
      if lvl == NULL {
        TableHasNoNull(om, lm, home, v, s, px);
        lvl := NewLevel(s, px, levels, orders);
        if lvl == NULL {
          KeptUnchanged(om, lm, v, o);
          return 0, NULL;
        }
        created := true;
      } else {
        KeptUnchanged(om, lm, v, o);
      }
      l := lvl;
      ghost var lm1, v1 := levels.storage[..], View();
      NotInNew(v, v1, lvl, o);
      LevelAt(om, lm1, home, v1, s, px);
      Append(lvl, o, levels, orders);
      ArrivedVia(v, v1, View(), s, px, lvl, o);
      KeptVia(lm, lm1, levels.storage[..], v, lvl);
      OrdersKeptVia(om, orders.storage[..], v, v1, lvl, o);
      rc := if created then 2 else 1;
    }

    /** The tail of add_order: o joins the queue of level l. */
    method Append(l: Ptr, o: Ptr, levels: MemoryPool<Level>, orders: MemoryPool<Order>)
      requires Valid() && Apart(levels, orders) && levels.Valid()
      requires orders.capacity == orders.storage.Length <= 0xFFFF_FFFF
      requires BookShape(orders.storage[..], levels.storage[..], home, View())
      requires l in View().fifo && Live(levels.storage[..], l)
      requires Live(orders.storage[..], o) && !InBook(View(), o)
      requires var x, y := orders.storage[o].value, levels.storage[l].value;
               x.locate == home && x.side == y.side && x.price == y.price
      modifies this`fifo, this`liveOrderCount, levels.storage, orders.storage
      ensures Valid() && levels.Valid()
      ensures BookShape(orders.storage[..], levels.storage[..], home, View())
      ensures View() == old(View()).(fifo := old(fifo)[l := old(fifo)[l] + [o]], live := old(View()).live + 1)
      ensures OrdersKept(old(orders.storage[..]), orders.storage[..], old(View()), o)
      ensures Live(orders.storage[..], o) && orders.storage[o].value == old(orders.storage[o].value)
      ensures levels.storage[..] == old(levels.storage[..])[l := levels.storage[l]]
    {
      hide Linked, SideOk, Walk, FreeList, BookShape, Relinked, Waiting, OrdersKept;
      ghost var om, lm, v, q := orders.storage[..], levels.storage[..], View(), fifo[l];
      RoomInQueue(om, lm, home, v, l, o);
      PushBack(levels, orders, l, o, q);
      liveOrderCount := liveOrderCount + 1;
      fifo := fifo[l := q + [o]];
      AppendedShape(om, orders.storage[..], lm, levels.storage[..], home, v, l, o);
      LiveSlotUpdate(lm, levels.storage[..], levels.head, levels.free, l);
    }

    /** remove_level_from_list, erase_level_from_map and the release of the slot, for a level without orders. */
    method DropLevel(s: Side, l: Ptr, levels: MemoryPool<Level>, ghost om: seq<Cell<Order>>)
      requires Valid() && Repr() !! {levels as object, levels.storage} && levels.Valid()
      requires BookShape(om, levels.storage[..], home, View())
      requires l in View().fifo && View().fifo[l] == [] && Live(levels.storage[..], l)
      requires levels.storage[l].value.side == s
      modifies Repr(), levels, levels.storage
      ensures Valid() && levels.Valid()
      ensures BookShape(om, levels.storage[..], home, View())
      ensures var px := old(levels.storage[l].value.price);
              && View().fifo == old(View()).fifo - {l}
              && View().On(s).table == old(View()).On(s).table - {px}
              && View().On(Opposite(s)).table == old(View()).On(Opposite(s)).table
              && View().live == old(View()).live
      ensures levels.free == [l] + old(levels.free)
      ensures LevelsKept(old(levels.storage[..]), levels.storage[..], old(View()), l)
    {
      hide Linked, SideOk, Waiting, Walk, FreeList, BookShape, Unlinked, LevelsKept, FlatHashMap.Valid, WithoutLevel;
      ghost var lm, v := levels.storage[..], View();
      var px := levels.storage[l].value.price;
      ghost var k := ReadyToUnlink(om, lm, home, v, s, l);
      RemoveLevelFromList(s, l, levels, k);
      EraseLevelFromMap(s, px);
      fifo := fifo - {l};
      FreeSlotsHoldLinks(lm, levels.head, levels.free);
      FreeAfterUnlink(lm, levels.storage[..], levels.head, levels.free, v.On(s).list, l);
      levels.Release(l);
      UnlistedThenErased(v, s, px, k);
      ListedLevels(om, lm, home, v);
      LevelRemoved(om, lm, levels.storage[..], home, v, s, px, k);
      RemovedKept(lm, levels.storage[..], v, s, l);
    }

    method RemoveLevelFromList(s: Side, l: Ptr, levels: MemoryPool<Level>, ghost k: nat)
      requires Repr() !! {levels as object, levels.storage}
      requires var v := View().On(s);
               && v.best == At(v.list, 0) && Linked(levels.storage[..], v.list) && k < |v.list| && v.list[k] == l
               && Live(levels.storage[..], l)
               && (levels.storage[l].prev != NULL ==> Live(levels.storage[..], levels.storage[l].prev))
               && (levels.storage[l].next != NULL ==> Live(levels.storage[..], levels.storage[l].next))
      modifies `bestBid, `bestAsk, `bids, `asks, levels.storage
      ensures levels.storage[..] == Unlinked(old(levels.storage[..]), l)
      ensures View() == Unlisted(old(View()), s, k)
    {
      hide Linked, Unlinked;
      ghost var v := View();
      Neighbours(levels.storage[..], v.On(s).list, k);
      if levels.storage[l].prev == NULL {
        if s == Buy { bestBid := levels.storage[l].next; } else { bestAsk := levels.storage[l].next; }
      }
      Unsplice(levels.storage, l);
      if s == Buy { bids := RemovedAt(bids, k); } else { asks := RemovedAt(asks, k); }
    }

    method EraseLevelFromMap(s: Side, px: u32)
      requires Valid() && px in View().On(s).table
      modifies this`bidLevelCount, this`askLevelCount, bidMap, bidMap.keys, bidMap.values, askMap, askMap.keys,
          askMap.values
      ensures Valid()
      ensures View() == Erased(old(View()), s, px)
    {
      hide FlatHashMap.Valid;
      if s == Buy {
        bidMap.NoEmptyKey();
        bidMap.Erase(px);
        bidLevelCount := bidLevelCount - 1;
      } else {
        askMap.NoEmptyKey();
        askMap.Erase(px);
        askLevelCount := askLevelCount - 1;
      }
    }

    /** The common end of execute_order and remove_order, once the order is unlinked: a level left without
        orders goes. */
    method CloseIfEmpty(s: Side, l: Ptr, levels: MemoryPool<Level>, orders: MemoryPool<Order>) returns (rc: int)
      requires Valid() && Apart(levels, orders) && levels.Valid()
      requires BookShape(orders.storage[..], levels.storage[..], home, View())
      requires l in View().fifo && Live(levels.storage[..], l) && levels.storage[l].value.side == s
      requires forall x :: x in View().fifo && x != l ==> View().fifo[x] != []
      modifies Repr(), levels, levels.storage
      ensures Ok(levels, orders)
      ensures rc == if old(View()).fifo[l] == [] then 2 else 1
      ensures levels.free == (if rc == 2 then [l] else []) + old(levels.free)
      ensures var px := old(levels.storage[l].value.price);
              if rc == 2 then && View().fifo == old(View()).fifo - {l}
                              && View().On(s).table == old(View()).On(s).table - {px}
                              && View().On(Opposite(s)).table == old(View()).On(Opposite(s)).table
                              && View().live == old(View()).live
              else View() == old(View())
      ensures LevelsKept(old(levels.storage[..]), levels.storage[..], old(View()), l)
    {
      hide Linked, SideOk, Waiting, Walk, FreeList, BookShape, LevelsKept, FlatHashMap.Valid;
      CountIsLength(orders.storage[..], levels.storage[..], home, View(), l);
      KeptUnchanged(orders.storage[..], levels.storage[..], View(), l);
      if levels.storage[l].value.count == 0 {
        DropLevel(s, l, levels, orders.storage[..]);
        return 2;
      }
      assert View().fifo[l] != [];
      return 1;
    }

    /** remove_order: 1 when the level remains, 2 when it went with its last order. A missing level, for which
        the code returns 0, cannot occur. */
    method RemoveOrder(o: Ptr, levels: MemoryPool<Level>, orders: MemoryPool<Order>) returns (rc: int, ghost l: Ptr)
      requires Ok(levels, orders) && InBook(View(), o) && Live(orders.storage[..], o)
      modifies Repr(), levels, levels.storage, orders.storage
      ensures Ok(levels, orders)
      ensures RemoveEffect(old(Now(levels, orders)), Now(levels, orders), o, rc, l)
    {
      hide Linked, SideOk, Waiting, Walk, FreeList, BookShape, Relinked, LevelsKept, OrdersKept, InBook, Departed,
           FlatHashMap.Valid, Describes;
      ghost var om, lm, v := orders.storage[..], levels.storage[..], View();
      var s, px := orders.storage[o].value.side, orders.storage[o].value.price;
      ghost var k;
      l, k := Whereabouts(om, lm, home, v, o);
      NoEmptyKeys(s);
      var lvl := FindLevel(s, px);
      if lvl == NULL {
        return 0, NULL;
      }
      UnlinkAndDeduct(levels, orders, lvl, o, v.fifo[lvl], k);
      UnlinkedValues(om, orders.storage[..], v.fifo[lvl], k);
      rc := Dismiss(s, lvl, o, k, levels, orders, om, lm);
    }

    /** The common end of execute_order and remove_order: the order has just been unlinked from its level (om and lm
        are the memories from before), the count of live orders follows, and a level left without orders goes. */
    method Dismiss(s: Side, l: Ptr, ghost o: Ptr, ghost k: nat, levels: MemoryPool<Level>, orders: MemoryPool<Order>,
                   ghost om: seq<Cell<Order>>, ghost lm: seq<Cell<Level>>) returns (rc: int)
      requires Valid() && Apart(levels, orders) && levels.storage.Length == levels.capacity
      requires FreeList(lm, levels.head, levels.free) && BookOk(om, lm, home, View())
      requires l in View().fifo && k < |View().fifo[l]| && View().fifo[l][k] == o && Live(om, o)
      requires var om', q := orders.storage[..], View().fifo[l];
               && |om'| == |om| && (forall p :: Live(om, p) && p != o ==> Live(om', p) && om'[p].value == om[p].value)
               && (forall p :: 0 <= p < |om| && p !in q ==> om'[p] == om[p])
      requires var lm', q := levels.storage[..], View().fifo[l];
               && Live(lm, l) && lm[l].value.side == s && |lm'| == |lm| && lm' == lm[l := lm'[l]]
                   && SameLevel(lm[l], lm'[l])
               && Describes(orders.storage[..], lm'[l].value, q[..k] + q[k + 1..])
      modifies Repr(), levels, levels.storage
      ensures Ok(levels, orders)
      ensures Departed(old(View()), View(), s, lm[l].value.price, l, o)
      ensures rc == if Without(old(View()).fifo[l], o) == [] then 2 else 1
      ensures levels.free == (if rc == 2 then [l] else []) + old(levels.free)
      ensures OrdersKept(om, orders.storage[..], old(View()), o) && LevelsKept(lm, levels.storage[..], old(View()), l)
    {
      hide Linked, SideOk, Waiting, Walk, FreeList, BookShape, Relinked, LevelsKept, OrdersKept, Departed,
           FlatHashMap.Valid, Describes;
      ghost var v, om', lm' := View(), orders.storage[..], levels.storage[..];
      ghost var r := v.fifo[l][..k] + v.fifo[l][k + 1..];
      DetachedShape(om, om', lm, lm', home, v, l, o, k, r);
      LiveSlotUpdate(lm, lm', levels.head, levels.free, l);
      liveOrderCount := liveOrderCount - 1;
      fifo := fifo[l := r];
      rc := CloseIfEmpty(s, l, levels, orders);
      DepartedVia(v, View(), s, lm[l].value.price, l, o, r);
      KeptAfter(lm, lm', levels.storage[..], v, l, r);
    }

    /** execute_order: 0 for a partial fill, 1 when the order is filled and its level remains, 2 when the level
        went with it. A missing level, for which the code returns -1, cannot occur. */
    method ExecuteOrder(o: Ptr, qty: u32, levels: MemoryPool<Level>, orders: MemoryPool<Order>)
      returns (rc: int, ghost l: Ptr)
      requires Ok(levels, orders) && InBook(View(), o) && Live(orders.storage[..], o)
      modifies Repr(), levels, levels.storage, orders.storage
      ensures Ok(levels, orders)
      ensures ExecuteEffect(old(Now(levels, orders)), Now(levels, orders), o, qty, rc, l)
    {
      hide Linked, SideOk, Waiting, Walk, FreeList, BookShape, Relinked, LevelsKept, OrdersKept, InBook, Departed,
           FlatHashMap.Valid, Describes;
      ghost var om, lm, v := orders.storage[..], levels.storage[..], View();
      var s, px := orders.storage[o].value.side, orders.storage[o].value.price;
      ghost var k;
      l, k := Whereabouts(om, lm, home, v, o);
      NoEmptyKeys(s);
      var lvl := FindLevel(s, px);
      if lvl == NULL {
        return -1, NULL;
      }
      TakenShares(om, lm, home, v, l, o, k, qty);
      var dead := TakeShares(lvl, o, qty, levels, orders);
      ghost var om1, lm1 := orders.storage[..], levels.storage[..];
      LiveSlotUpdate(lm, lm1, levels.head, levels.free, lvl);
      if !dead {
        PartialShape(om, om1, lm, lm1, home, v, lvl, o, k, qty);
        return 0, l;
      }
      Unlink(levels, orders, lvl, o, v.fifo[lvl], k);
      UnlinkedValues(om1, orders.storage[..], v.fifo[lvl], k);
      rc := Dismiss(s, lvl, o, k, levels, orders, om, lm);
    }

    /** The deduction from the level and the reduction of the order, which come before any unlinking. */
    method TakeShares(l: Ptr, o: Ptr, qty: u32, levels: MemoryPool<Level>, orders: MemoryPool<Order>)
      returns (dead: bool)
      requires levels.storage as object != orders.storage
      requires Live(levels.storage[..], l) && Live(orders.storage[..], o)
      requires Filled(orders.storage[o].value.shares, qty) <= levels.storage[l].value.total
      modifies levels.storage, orders.storage
      ensures dead <==> qty >= old(orders.storage[o].value.shares)
      ensures orders.storage[..] == old(orders.storage[..])[o := Reduced(old(orders.storage[o]), qty)]
      ensures var filled := Filled(old(orders.storage[o].value.shares), qty);
              levels.storage[..] == old(levels.storage[..])[l := Deducted(old(levels.storage[l]), filled)]
    {
      var c := levels.storage[l];
      var filled := if qty >= orders.storage[o].value.shares then orders.storage[o].value.shares else qty;
      levels.storage[l] := c.(value := c.value.(total := c.value.total - filled));
      dead := Reduce(orders, o, qty);
    }

    /** cancel_order: a partial cancel is a fill. */
    method CancelOrder(o: Ptr, qty: u32, levels: MemoryPool<Level>, orders: MemoryPool<Order>)
      returns (rc: int, ghost l: Ptr)
      requires Ok(levels, orders) && InBook(View(), o) && Live(orders.storage[..], o)
      modifies Repr(), levels, levels.storage, orders.storage
      ensures Ok(levels, orders)
      ensures ExecuteEffect(old(Now(levels, orders)), Now(levels, orders), o, qty, rc, l)
    {
      hide BookOk, ExecuteEffect, FlatHashMap.Valid, FreeList;
      rc, l := ExecuteOrder(o, qty, levels, orders);
    }

    /** Whichever of the two the event asks for. */
    method TakeFrom(o: Ptr, qty: u32, cancel: bool, levels: MemoryPool<Level>, orders: MemoryPool<Order>)
      returns (rc: int, ghost l: Ptr)
      requires Ok(levels, orders) && InBook(View(), o) && Live(orders.storage[..], o)
      modifies Repr(), levels, levels.storage, orders.storage
      ensures Ok(levels, orders)
      ensures ExecuteEffect(old(Now(levels, orders)), Now(levels, orders), o, qty, rc, l)
    {
      hide BookOk, ExecuteEffect, FlatHashMap.Valid, FreeList;
      if cancel {
        rc, l := CancelOrder(o, qty, levels, orders);
      } else {
        rc, l := ExecuteOrder(o, qty, levels, orders);
      }
    }

    /** live_levels */
    function LiveLevels(): (n: int)
      reads Repr()
      ensures n == View().bid.count + View().ask.count
    {
      bidLevelCount + askLevelCount
    }

    /** for_each_order: the bids from the best price down, then the asks from the best price up, and in each
        level the orders from the oldest to the youngest. */
    method ForEachOrder(levels: MemoryPool<Level>, orders: MemoryPool<Order>) returns (visited: seq<Ptr>)
      requires Ok(levels, orders)
      ensures visited == Walk(View().bid.list, View().fifo) + Walk(View().ask.list, View().fifo)
      ensures InPriority(orders.storage[..], View(), Buy, Walk(View().bid.list, View().fifo))
      ensures InPriority(orders.storage[..], View(), Sell, Walk(View().ask.list, View().fifo))
    {
      hide Walk, FlatHashMap.Valid, FreeList, BookShape, InPriority;
      WalkInPriority(orders.storage[..], levels.storage[..], home, View(), Buy);
      WalkInPriority(orders.storage[..], levels.storage[..], home, View(), Sell);
      SideOf(orders.storage[..], levels.storage[..], home, View(), Buy);
      SideOf(orders.storage[..], levels.storage[..], home, View(), Sell);
      ListedLevels(orders.storage[..], levels.storage[..], home, View());
      var onBid := VisitSide(Buy, levels, orders);
      var onAsk := VisitSide(Sell, levels, orders);
      return onBid + onAsk;
    }

    method VisitSide(s: Side, levels: MemoryPool<Level>, orders: MemoryPool<Order>) returns (visited: seq<Ptr>)
      requires BookShape(orders.storage[..], levels.storage[..], home, View())
      ensures visited == Walk(View().On(s).list, View().fifo)
    {
      hide Linked, SideOk, Waiting, Describes, BookShape;
      ghost var om, lm, v, list := orders.storage[..], levels.storage[..], View(), View().On(s).list;
      visited := [];
      SideEnds(om, lm, home, v, s);
      var lvl := if s == Buy then bestBid else bestAsk;
      ghost var i := 0;
      while lvl != NULL
        invariant 0 <= i <= |list| && lvl == At(list, i)
        invariant visited == Walk(list[..i], v.fifo)
        decreases |list| - i
      {
        LevelNext(om, lm, home, v, s, i);
        ghost var q := v.fifo[list[i]];
        var o := levels.storage[lvl].value.head;
        ghost var j := 0;
        while o != NULL
          invariant 0 <= j <= |q| && o == At(q, j)
          invariant visited == Walk(list[..i], v.fifo) + q[..j]
          decreases |q| - j
        {
          visited := visited + [o];
          OrderNext(om, lm, home, v, list[i], j);
          o := orders.storage[o].next;
          j := j + 1;
        }
        QueueDistinct(om, lm, home, v, list[i]);
        assert j == |q| && q[..j] == q;
        assert list[..i + 1][..i] == list[..i];
        lvl := levels.storage[lvl].next;
        i := i + 1;
      }
      SideLive(om, lm, home, v, s);
      assert list[..i] == list;
    }

    /** clear_levels: every level of both sides is released, reading its link before its slot goes, and the
        book is empty. The orders may already be gone; om is the order memory for which the book was last
        intact. */
    method ClearLevels(levels: MemoryPool<Level>, ghost om: seq<Cell<Order>>)
      requires Valid() && Repr() !! {levels as object, levels.storage} && levels.Valid()
      requires BookShape(om, levels.storage[..], home, View())
      modifies Repr(), levels, levels.storage
      ensures Valid() && levels.Valid() && View() == EMPTY_BOOK
      ensures |levels.free| == |old(levels.free)| + |old(View()).bid.list| + |old(View()).ask.list|
      ensures LevelsKept(old(levels.storage[..]), levels.storage[..], old(View()), NULL)
    {
      hide Linked, SideOk, Waiting, Describes, BookShape, FlatHashMap.Valid, Walk, FreeList, LevelsKept;
      ReleaseBothSides(levels, om);
      Forget();
    }

    /** The book lets go of its levels, its tables and its counts. */
    method Forget()
      requires Valid()
      modifies Repr()
      ensures Valid() && View() == EMPTY_BOOK
    {
      hide FlatHashMap.Valid;
      bestBid, bestAsk := NULL, NULL;
      bidLevelCount, askLevelCount, liveOrderCount := 0, 0, 0;
      bidMap.Clear();
      askMap.Clear();
      bids, asks, fifo := [], [], map[];
    }

    method ReleaseBothSides(levels: MemoryPool<Level>, ghost om: seq<Cell<Order>>)
      requires Repr() !! {levels as object, levels.storage} && levels.Valid()
      requires BookShape(om, levels.storage[..], home, View())
      modifies levels, levels.storage
      ensures levels.Valid()
      ensures |levels.free| == |old(levels.free)| + |View().bid.list| + |View().ask.list|
      ensures LevelsKept(old(levels.storage[..]), levels.storage[..], View(), NULL)
    {
      hide Linked, SideOk, Waiting, Describes, BookShape, FlatHashMap.Valid, Walk, FreeList, LevelsKept;
      ghost var lm, v := levels.storage[..], View();
      ListedLevels(om, lm, home, v);
      SideEnds(om, lm, home, v, Buy);
      SideEnds(om, lm, home, v, Sell);
      SideMembers(om, lm, home, v);
      SideLinked(om, lm, home, v, Buy);
      SideLinked(om, lm, home, v, Sell);
      ReleaseLevels(bestBid, levels, v.bid.list);
      ghost var lm1 := levels.storage[..];
      assert forall p :: 0 <= p < |lm| && p !in v.bid.list ==> lm1[p] == lm[p];
      LinkedFrame(lm, lm1, v.ask.list);
      ReleaseLevels(bestAsk, levels, v.ask.list);
      ghost var lm2 := levels.storage[..];
      assert forall p :: 0 <= p < |lm| && p !in v.ask.list ==> lm2[p] == lm1[p];
      ClearedKept(lm, lm1, lm2, v);
    }

    method ReleaseLevels(first: Ptr, levels: MemoryPool<Level>, ghost list: seq<Ptr>)
      requires levels.Valid() && Linked(levels.storage[..], list) && first == At(list, 0)
      modifies levels, levels.storage
      ensures levels.Valid() && |levels.free| == |old(levels.free)| + |list|
      ensures forall p :: 0 <= p < levels.capacity && p !in list ==> levels.storage[p] == old(levels.storage[p])
    {
      hide FreeList, Linked;
      ghost var lm := levels.storage[..];
      LinkedLive(lm, list);
      LinkedDistinct(lm, list);
      assert forall j :: 0 <= j < |list| ==> list[j] in list && Live(lm, list[j]);
      var lvl := first;
      ghost var i := 0;
      while lvl != NULL
        invariant levels.Valid() && 0 <= i <= |list| && lvl == At(list, i)
        invariant |levels.free| == |old(levels.free)| + i
        invariant forall j :: i <= j < |list| ==> levels.storage[list[j]] == lm[list[j]]
        invariant forall p :: 0 <= p < levels.capacity && p !in list ==> levels.storage[p] == lm[p]
        decreases |list| - i
      {
        Neighbours(lm, list, i);
        FreeSlotsHoldLinks(levels.storage[..], levels.head, levels.free);
        var next := levels.storage[lvl].next;
        levels.Release(lvl);
        lvl := next;
        i := i + 1;
      }
    }

    /** best_bid_price and best_bid_shares: the best live price with all the shares waiting there. */
    method BestBid(levels: MemoryPool<Level>, orders: MemoryPool<Order>) returns (px: u32, shares: u64)
      requires Ok(levels, orders)
      ensures if View().bid.table == map[] then px == 0
              else px in View().bid.table && forall other :: other in View().bid.table ==> other <= px
      ensures shares == if px in View().bid.table
              then SumShares(orders.storage[..], QueueOf(View().fifo, View().bid.table[px])) else 0
    {
      hide FlatHashMap.Valid, FreeList, BookShape;
      px, shares := BestOf(Buy, levels, orders);
    }

    /** best_ask_price and best_ask_shares: the best live price with all the shares waiting there. */
    method BestAsk(levels: MemoryPool<Level>, orders: MemoryPool<Order>) returns (px: u32, shares: u64)
      requires Ok(levels, orders)
      ensures if View().ask.table == map[] then px == 0
              else px in View().ask.table && forall other :: other in View().ask.table ==> px <= other
      ensures shares == if px in View().ask.table
              then SumShares(orders.storage[..], QueueOf(View().fifo, View().ask.table[px])) else 0
    {
      hide FlatHashMap.Valid, FreeList, BookShape;
      px, shares := BestOf(Sell, levels, orders);
    }

    method BestOf(s: Side, levels: MemoryPool<Level>, orders: MemoryPool<Order>) returns (px: u32, shares: u64)
      requires BookShape(orders.storage[..], levels.storage[..], home, View())
      ensures IsBest(px, View().On(s).table.Keys, s)
      ensures shares == if px in View().On(s).table
              then SumShares(orders.storage[..], QueueOf(View().fifo, View().On(s).table[px])) else 0
    {
      hide BookShape, SumShares;
      BestIsFirst(orders.storage[..], levels.storage[..], home, View(), s);
      var best := if s == Buy then bestBid else bestAsk;
      if best == NULL {
        return 0, 0;
      }
      LevelOf(orders.storage[..], levels.storage[..], home, View(), best);
      return levels.storage[best].value.price, levels.storage[best].value.total;
    }

    lemma NoEmptyKeys(s: Side)
      requires Valid()
      ensures EMPTY_KEY !in View().On(s).table
    {
      hide FlatHashMap.Valid;
      bidMap.NoEmptyKey();
      askMap.NoEmptyKey();
    }
  }

  lemma CountIsLength(om: seq<Cell<Order>>, lm: seq<Cell<Level>>, loc: u16, v: BookView, l: Ptr)
    requires BookShape(om, lm, loc, v) && l in v.fifo
    ensures Live(lm, l) && lm[l].value.count == |v.fifo[l]|
  {
    QueueWaits(om, lm, loc, v, l);
  }

  /** The level and the position at which an order of the book waits. */
  lemma Whereabouts(om: seq<Cell<Order>>, lm: seq<Cell<Level>>, loc: u16, v: BookView, o: Ptr) returns (l: Ptr, k: nat)
    requires BookShape(om, lm, loc, v) && InBook(v, o)
    ensures Live(om, o) && om[o].value.locate == loc
    ensures om[o].value.price in v.On(om[o].value.side).table && v.On(om[o].value.side).table[om[o].value.price] == l
    ensures l in v.fifo && k < |v.fifo[l]| && v.fifo[l][k] == o && l != NULL
    ensures Live(lm, l) && lm[l].value.side == om[o].value.side && lm[l].value.price == om[o].value.price
    ensures Describes(om, lm[l].value, v.fifo[l])
  {
    hide BookShape, Linked;
    l :| l in v.fifo && o in v.fifo[l];
    k :| 0 <= k < |v.fifo[l]| && v.fifo[l][k] == o;
    MemberOf(om, lm, loc, v, l, o);
    LevelAt(om, lm, loc, v, om[o].value.side, om[o].value.price);
    QueueWaits(om, lm, loc, v, l);
  }

  lemma UnlinkedValues(om: seq<Cell<Order>>, om': seq<Cell<Order>>, q: seq<Ptr>, k: nat)
    requires Relinked(om, om', q) && k < |q| && Live(om, q[k])
    ensures Live(om', q[k]) && om'[q[k]].value == om[q[k]].value
    ensures forall p :: Live(om, p) && p != q[k] ==> Live(om', p) && om'[p].value == om[p].value
    ensures |om'| == |om| && forall p :: 0 <= p < |om| && p !in q ==> om'[p] == om[p]
  {
    RelinkedValues(om, om', q);
  }

  /** The book after one order has been taken out of its queue, before an empty level is dropped. */
  lemma DetachedShape(om: seq<Cell<Order>>, om': seq<Cell<Order>>, lm: seq<Cell<Level>>, lm': seq<Cell<Level>>,
                      loc: u16, v: BookView, l: Ptr, o: Ptr, k: nat, r: seq<Ptr>)
    requires BookShape(om, lm, loc, v) && l in v.fifo && k < |v.fifo[l]| && v.fifo[l][k] == o
    requires r == v.fifo[l][..k] + v.fifo[l][k + 1..]
    requires |om'| == |om| && forall p :: Live(om, p) && p != o ==> Live(om', p) && om'[p].value == om[p].value
    requires forall p :: 0 <= p < |om| && p !in v.fifo[l] ==> om'[p] == om[p]
    requires Live(lm, l) && |lm'| == |lm| && lm' == lm[l := lm'[l]] && SameLevel(lm[l], lm'[l])
    requires Describes(om', lm'[l].value, r)
    ensures BookShape(om', lm', loc, v.(fifo := v.fifo[l := r], live := v.live - 1))
    ensures OrdersKept(om, om', v, o)
    ensures Without(v.fifo[l], o) == r
  {
    hide Linked, Walk, SideOk, Describes, BookShape;
    var q := v.fifo[l];
    QueueWaits(om, lm, loc, v, l);
    QueueDistinct(om, lm, loc, v, l);
    WithoutAt(q, k);
    assert forall i :: 0 <= i < |r| ==> r[i] == q[if i < k then i else i + 1] && r[i] != o;
    assert Waiting(om', lm', loc, l, r);
    assert forall p :: p in q ==> InBook(v, p);
    Requeued(om, om', lm, lm', loc, v, l, r, o);
  }

  function Deducted(c: Cell<Level>, filled: u32): Cell<Level>
    requires c.Object? && filled <= c.value.total
  {
    c.(value := c.value.(total := c.value.total - filled))
  }

  /** Deducting the fill from the level and from the order keeps the level's total exact. */
  lemma TakenShares(om: seq<Cell<Order>>, lm: seq<Cell<Level>>, loc: u16, v: BookView, l: Ptr, o: Ptr, k: nat, qty: u32)
    requires BookShape(om, lm, loc, v) && l in v.fifo && k < |v.fifo[l]| && v.fifo[l][k] == o && Live(om, o)
    ensures Live(lm, l)
    ensures var filled := Filled(om[o].value.shares, qty);
            var om' := om[o := Reduced(om[o], qty)];
            var q := v.fifo[l];
            && filled <= lm[l].value.total
            && Describes(om', lm[l].value.(total := lm[l].value.total - filled), q)
            && Linked(om', q) && lm[l].value.head == At(q, 0) && lm[l].value.tail == At(q, |q| - 1)
            && lm[l].value.count == |q| && lm[l].value.total - filled == SumShares(om', q)
  {
    hide Linked, SumShares;
    QueueWaits(om, lm, loc, v, l);
    ReducedQueue(om, lm[l].value, v.fifo[l], k, qty);
  }

  lemma PartialShape(om: seq<Cell<Order>>, om': seq<Cell<Order>>, lm: seq<Cell<Level>>, lm': seq<Cell<Level>>,
                     loc: u16, v: BookView, l: Ptr, o: Ptr, k: nat, qty: u32)
    requires BookShape(om, lm, loc, v) && l in v.fifo && k < |v.fifo[l]| && v.fifo[l][k] == o && Live(om, o)
    requires om' == om[o := Reduced(om[o], qty)]
    requires Live(lm, l) && |lm'| == |lm| && lm' == lm[l := lm'[l]] && SameLevel(lm[l], lm'[l])
    requires Describes(om', lm'[l].value, v.fifo[l])
    ensures BookShape(om', lm', loc, v)
    ensures OrdersKept(om, om', v, o) && LevelsKept(lm, lm', v, l)
  {
    hide Linked, Walk, SideOk, Describes, BookShape;
    var q := v.fifo[l];
    QueueWaits(om, lm, loc, v, l);
    QueueDistinct(om, lm, loc, v, l);
    assert Waiting(om', lm', loc, l, q);
    Requeued(om, om', lm, lm', loc, v, l, q, o);
    assert v.fifo[l := q] == v.fifo;
  }

  lemma QueueDistinct(om: seq<Cell<Order>>, lm: seq<Cell<Level>>, loc: u16, v: BookView, l: Ptr)
    requires BookShape(om, lm, loc, v) && l in v.fifo
    ensures Distinct(v.fifo[l]) && forall k :: 0 <= k < |v.fifo[l]| ==> Live(om, v.fifo[l][k])
  {
    QueueWaits(om, lm, loc, v, l);
  }

  lemma DepartedVia(v: BookView, v': BookView, s: Side, px: u32, l: Ptr, o: Ptr, r: seq<Ptr>)
    requires l in v.fifo && Without(v.fifo[l], o) == r
    requires if r == [] then v'.fifo == v.fifo[l := r] - {l} && v'.On(s).table == v.On(s).table - {px}
             else v'.fifo == v.fifo[l := r] && v'.On(s).table == v.On(s).table
    requires v'.On(Opposite(s)).table == v.On(Opposite(s)).table && v'.live == v.live - 1
    ensures Departed(v, v', s, px, l, o)
  {
    assert v.fifo[l := r] - {l} == v.fifo - {l};
  }

  lemma KeptAfter(lm: seq<Cell<Level>>, lm1: seq<Cell<Level>>, lm': seq<Cell<Level>>, v: BookView,
                  l: Ptr, r: seq<Ptr>)
    requires l in v.fifo && |lm1| == |lm| && 0 <= l < |lm| && lm1 == lm[l := lm1[l]]
    requires LevelsKept(lm1, lm', v.(fifo := v.fifo[l := r], live := v.live - 1), l)
    ensures LevelsKept(lm, lm', v, l)
  {
  }

  lemma SideEnds(om: seq<Cell<Order>>, lm: seq<Cell<Level>>, loc: u16, v: BookView, s: Side)
    requires BookShape(om, lm, loc, v)
    ensures v.On(s).best == At(v.On(s).list, 0)
  {
    SideOf(om, lm, loc, v, s);
  }

  lemma SideLinked(om: seq<Cell<Order>>, lm: seq<Cell<Level>>, loc: u16, v: BookView, s: Side)
    requires BookShape(om, lm, loc, v)
    ensures Linked(lm, v.On(s).list)
  {
    hide BookShape;
    SideOf(om, lm, loc, v, s);
  }

  lemma SideLive(om: seq<Cell<Order>>, lm: seq<Cell<Level>>, loc: u16, v: BookView, s: Side)
    requires BookShape(om, lm, loc, v)
    ensures forall i :: 0 <= i < |v.On(s).list| ==> Live(lm, v.On(s).list[i]) && v.On(s).list[i] in v.fifo
  {
    hide BookShape;
    SideOf(om, lm, loc, v, s);
    ListedLevels(om, lm, loc, v);
  }

  lemma LevelNext(om: seq<Cell<Order>>, lm: seq<Cell<Level>>, loc: u16, v: BookView, s: Side, i: nat)
    requires BookShape(om, lm, loc, v) && i < |v.On(s).list|
    ensures var l := v.On(s).list[i];
            l in v.fifo && Live(lm, l) && lm[l].next == At(v.On(s).list, i + 1) && lm[l].value.head == At(v.fifo[l], 0)
  {
    hide BookShape;
    SideLinked(om, lm, loc, v, s);
    SideLive(om, lm, loc, v, s);
    Neighbours(lm, v.On(s).list, i);
    QueueWaits(om, lm, loc, v, v.On(s).list[i]);
  }

  lemma OrderNext(om: seq<Cell<Order>>, lm: seq<Cell<Level>>, loc: u16, v: BookView, l: Ptr, j: nat)
    requires BookShape(om, lm, loc, v) && l in v.fifo && j < |v.fifo[l]|
    ensures Live(om, v.fifo[l][j]) && om[v.fifo[l][j]].next == At(v.fifo[l], j + 1)
  {
    hide BookShape;
    QueueWaits(om, lm, loc, v, l);
    Neighbours(om, v.fifo[l], j);
  }

  lemma ClearedKept(lm: seq<Cell<Level>>, lm1: seq<Cell<Level>>, lm': seq<Cell<Level>>, v: BookView)
    requires |lm1| == |lm| && |lm'| == |lm|
    requires forall p :: p in v.bid.list || p in v.ask.list ==> p in v.fifo
    requires forall p :: 0 <= p < |lm| && p !in v.bid.list ==> lm1[p] == lm[p]
    requires forall p :: 0 <= p < |lm| && p !in v.ask.list ==> lm'[p] == lm1[p]
    ensures LevelsKept(lm, lm', v, NULL)
  {
  }

  // ---- top of book ----

  /** px is better than every other live price, or 0 on an empty side. */
  ghost predicate IsBest(px: u32, prices: set<u32>, s: Side) {
    if prices == {} then px == 0
    else px in prices && forall other :: other in prices && other != px ==> Before(s, px, other)
  }

  lemma BestIsFirst(om: seq<Cell<Order>>, lm: seq<Cell<Level>>, loc: u16, v: BookView, s: Side)
    requires BookShape(om, lm, loc, v)
    ensures var side := v.On(s);
            if side.best == NULL then side.table == map[]
            else && side.best in v.fifo && Live(lm, side.best) && lm[side.best].value.side == s
                 && IsBest(lm[side.best].value.price, side.table.Keys, s)
                 && Waiting(om, lm, loc, side.best, v.fifo[side.best])
  {
    hide BookShape, Linked, Describes;
    SideOf(om, lm, loc, v, s);
    SideLive(om, lm, loc, v, s);
    var side := v.On(s);
    assert forall px :: px in side.table ==> side.table[px] in side.list;
    if side.list != [] {
      QueueWaits(om, lm, loc, v, side.list[0]);
      forall px | px in side.table && px != lm[side.best].value.price
        ensures Before(s, lm[side.best].value.price, px)
      {
        var i :| 0 <= i < |side.list| && side.list[i] == side.table[px];
        assert i > 0;
      }
    }
  }

  lemma RemovedKept(lm: seq<Cell<Level>>, lm': seq<Cell<Level>>, v: BookView, s: Side, l: Ptr)
    requires |lm'| == |lm|
    requires forall p :: p in v.On(s).list ==> p in v.fifo
    requires forall p :: 0 <= p < |lm| && p !in v.On(s).list ==> lm'[p] == lm[p]
    ensures LevelsKept(lm, lm', v, l)
  {
  }

  lemma ReadyToUnlink(om: seq<Cell<Order>>, lm: seq<Cell<Level>>, loc: u16, v: BookView, s: Side, l: Ptr)
    returns (k: nat)
    requires BookShape(om, lm, loc, v) && l in v.fifo && Live(lm, l) && lm[l].value.side == s
    ensures var side := v.On(s);
            && side.best == At(side.list, 0) && Linked(lm, side.list) && k < |side.list| && side.list[k] == l
            && (lm[l].prev != NULL ==> Live(lm, lm[l].prev)) && (lm[l].next != NULL ==> Live(lm, lm[l].next))
            && lm[l].value.price in side.table
  {
    hide BookShape, Linked;
    LevelOf(om, lm, loc, v, l);
    SideOf(om, lm, loc, v, s);
    var side := v.On(s);
    k :| 0 <= k < |side.list| && side.list[k] == l;
    Neighbours(lm, side.list, k);
  }

  /** Unlinking touches listed levels only, so the free list survives it. */
  lemma FreeAfterUnlink(lm: seq<Cell<Level>>, lm': seq<Cell<Level>>, head: Ptr, free: seq<Ptr>, list: seq<Ptr>, l: Ptr)
    requires FreeList(lm, head, free) && Linked(lm, list) && l in list && Live(lm, l)
    requires lm[l].prev != NULL ==> Live(lm, lm[l].prev)
    requires lm[l].next != NULL ==> Live(lm, lm[l].next)
    requires lm' == Unlinked(lm, l)
    ensures FreeList(lm', head, free)
  {
    hide Linked, Unlinked;
    var k :| 0 <= k < |list| && list[k] == l;
    UnlinkKeepsLinked(lm, list, k);
    RelinkedValues(lm, lm', list);
    LinkedLive(lm, list);
    FreeSlotsHoldLinks(lm, head, free);
    FreeListFrame(lm, lm', head, free);
  }

  lemma LinkedLive<T>(mem: seq<Cell<T>>, q: seq<Ptr>)
    requires Linked(mem, q)
    ensures forall p :: p in q ==> Live(mem, p)
  {
    forall p | p in q
      ensures Live(mem, p)
    {
      var k :| 0 <= k < |q| && q[k] == p;
      assert Live(mem, q[k]);
    }
  }

  lemma TableHasNoNull(om: seq<Cell<Order>>, lm: seq<Cell<Level>>, loc: u16, v: BookView, s: Side, px: u32)
    requires BookShape(om, lm, loc, v)
    ensures px in v.On(s).table ==> v.On(s).table[px] != NULL
  {
    if px in v.On(s).table {
      LevelAt(om, lm, loc, v, s, px);
    }
  }

  lemma KeptUnchanged(om: seq<Cell<Order>>, lm: seq<Cell<Level>>, v: BookView, o: Ptr)
    ensures OrdersKept(om, om, v, o)
    ensures forall l :: LevelsKept(lm, lm, v, l)
  {
  }

  lemma ArrivedVia(v: BookView, v1: BookView, v': BookView, s: Side, px: u32, l: Ptr, o: Ptr)
    requires (v1 == v && px in v.On(s).table && v.On(s).table[px] == l && l in v.fifo)
          || (l !in v.fifo && v1.fifo == v.fifo[l := []] && v1.On(s).table == v.On(s).table[px := l]
              && v1.On(Opposite(s)).table == v.On(Opposite(s)).table && v1.live == v.live)
    requires v' == v1.(fifo := v1.fifo[l := v1.fifo[l] + [o]], live := v1.live + 1)
    ensures Arrived(v, v', s, px, l, o)
    ensures (forall x :: x in v.fifo ==> v.fifo[x] != []) ==> forall x :: x in v'.fifo ==> v'.fifo[x] != []
  {
  }

  lemma KeptVia(lm: seq<Cell<Level>>, lm1: seq<Cell<Level>>, lm': seq<Cell<Level>>, v: BookView, l: Ptr)
    requires LevelsKept(lm, lm1, v, l) && 0 <= l < |lm1| && |lm'| == |lm1| && lm' == lm1[l := lm'[l]]
    ensures LevelsKept(lm, lm', v, l)
  {
  }

  lemma OrdersKeptVia(om: seq<Cell<Order>>, om': seq<Cell<Order>>, v: BookView, v1: BookView, l: Ptr, o: Ptr)
    requires OrdersKept(om, om', v1, o) && (v1 == v || v1.fifo == v.fifo[l := []])
    ensures OrdersKept(om, om', v, o)
  {
    assert forall p :: InBook(v1, p) ==> InBook(v, p);
  }

  lemma NotInNew(v: BookView, v': BookView, l: Ptr, o: Ptr)
    requires !InBook(v, o) && (v' == v || v'.fifo == v.fifo[l := []])
    ensures !InBook(v', o)
  {
  }

  /** The queue and the new order are distinct slots of a pool with fewer than 2^32 of them. */
  lemma RoomInQueue(om: seq<Cell<Order>>, lm: seq<Cell<Level>>, loc: u16, v: BookView, l: Ptr, o: Ptr)
    requires BookShape(om, lm, loc, v) && l in v.fifo && Live(om, o) && !InBook(v, o)
    ensures o !in v.fifo[l] && |v.fifo[l]| + 1 <= |om|
    ensures Waiting(om, lm, loc, l, v.fifo[l])
    ensures Live(lm, l) && Describes(om, lm[l].value, v.fifo[l])
  {
    hide BookShape, Linked, SumShares;
    QueueWaits(om, lm, loc, v, l);
    LinkedDistinct(om, v.fifo[l]);
    assert o !in v.fifo[l];
    DistinctBound(v.fifo[l] + [o], |om|);
  }

  lemma LiveSlotUpdate<T>(mem: seq<Cell<T>>, mem': seq<Cell<T>>, head: Ptr, free: seq<Ptr>, p: Ptr)
    requires FreeList(mem, head, free) && Live(mem, p)
    requires |mem'| == |mem| && mem' == mem[p := mem'[p]]
    ensures FreeList(mem', head, free)
  {
    FreeSlotsHoldLinks(mem, head, free);
    FreeListFrame(mem, mem', head, free);
  }

  lemma AppendedShape(om: seq<Cell<Order>>, om': seq<Cell<Order>>, lm: seq<Cell<Level>>, lm': seq<Cell<Level>>,
                      loc: u16, v: BookView, l: Ptr, o: Ptr)
    requires BookShape(om, lm, loc, v) && l in v.fifo && Live(lm, l) && Live(om, o) && !InBook(v, o)
    requires om[o].value.locate == loc && om[o].value.side == lm[l].value.side && om[o].value.price == lm[l].value.price
    requires Relinked(om, om', v.fifo[l] + [o])
    requires |lm'| == |lm| && lm' == lm[l := lm'[l]] && SameLevel(lm[l], lm'[l])
    requires Describes(om', lm'[l].value, v.fifo[l] + [o])
    ensures BookShape(om', lm', loc, v.(fifo := v.fifo[l := v.fifo[l] + [o]], live := v.live + 1))
    ensures OrdersKept(om, om', v, o) && Live(om', o) && om'[o].value == om[o].value
  {
    hide Linked, Walk, SideOk, Describes, BookShape;
    var r := v.fifo[l] + [o];
    RelinkedValues(om, om', r);
    QueueWaits(om, lm, loc, v, l);
    assert forall p :: p in v.fifo[l] ==> InBook(v, p);
    assert Waiting(om', lm', loc, l, r);
    Requeued(om, om', lm, lm', loc, v, l, r, o);
  }

  lemma QueueWaits(om: seq<Cell<Order>>, lm: seq<Cell<Level>>, loc: u16, v: BookView, l: Ptr)
    requires BookShape(om, lm, loc, v) && l in v.fifo
    ensures Waiting(om, lm, loc, l, v.fifo[l])
  {
  }

  /** Slots on the free list are in no book. */
  lemma FreeIsNotInBook(om: seq<Cell<Order>>, lm: seq<Cell<Level>>, loc: u16, v: BookView, head: Ptr, free: seq<Ptr>)
    requires BookShape(om, lm, loc, v) && FreeList(lm, head, free)
    ensures forall p :: p in free ==> p !in v.fifo
  {
    FreeSlotsHoldLinks(lm, head, free);
    forall p | p in free
      ensures p !in v.fifo
    {
      if p in v.fifo {
        LevelOf(om, lm, loc, v, p);
      }
    }
  }

  lemma NewLevelFrame(lm: seq<Cell<Level>>, lm1: seq<Cell<Level>>, lm': seq<Cell<Level>>, v: BookView, s: Side,
                      k: nat, l: Ptr, head: Ptr, free: seq<Ptr>)
    requires |lm1| == |lm| && 0 <= l < |lm| && lm1 == lm[l := lm1[l]] && lm1[l].Object?
    requires k <= |v.On(s).list| && Relinked(lm1, lm', InsertedAt(v.On(s).list, k, l))
    requires forall p :: p in v.On(s).list ==> p in v.fifo
    requires FreeList(lm, head, free) && l !in free
    ensures Live(lm', l) && LevelsKept(lm, lm', v, l)
    ensures FreeList(lm', head, free)
  {
    InsertedMembers(v.On(s).list, k, l);
    FreeSlotsHoldLinks(lm, head, free);
    RelinkedValues(lm1, lm', InsertedAt(v.On(s).list, k, l));
    forall p | 0 <= p < |lm| && p in free
      ensures lm'[p] == lm[p]
    {
      assert lm1[p] == lm[p];
    }
    FreeListFrame(lm, lm', head, free);
  }

  /** A freshly constructed level is ready to be sorted in. */
  lemma ReadyToSort(om: seq<Cell<Order>>, lm: seq<Cell<Level>>, lm1: seq<Cell<Level>>, loc: u16, v: BookView,
                    s: Side, px: u32, l: Ptr)
    requires BookShape(om, lm, loc, v) && px !in v.On(s).table && l !in v.fifo
    requires |lm1| == |lm| && 0 <= l < |lm| && lm1 == lm[l := lm1[l]]
    ensures var side := v.On(s);
            && side.best == At(side.list, 0) && Linked(lm1, side.list) && Ordered(lm1, s, side.list)
            && l !in side.list
            && forall i :: 0 <= i < |side.list| && Live(lm1, side.list[i]) ==> lm1[side.list[i]].value.price != px
  {
    hide BookShape;
    SideMembers(om, lm, loc, v);
    ListedLevels(om, lm, loc, v);
    SideOf(om, lm, loc, v, s);
    SideWithout(lm, lm1, s, v.On(s), px, l);
  }

  lemma SideWithout(lm: seq<Cell<Level>>, lm1: seq<Cell<Level>>, s: Side, v: SideView, px: u32, l: Ptr)
    requires SideOk(lm, s, v) && px !in v.table && l !in v.list
    requires |lm1| == |lm| && 0 <= l < |lm| && lm1 == lm[l := lm1[l]]
    ensures v.best == At(v.list, 0) && Linked(lm1, v.list) && Ordered(lm1, s, v.list)
    ensures forall i :: 0 <= i < |v.list| && Live(lm1, v.list[i]) ==> lm1[v.list[i]].value.price != px
  {
    hide Linked;
    LinkedFrame(lm, lm1, v.list);
  }

  lemma SideOf(om: seq<Cell<Order>>, lm: seq<Cell<Level>>, loc: u16, v: BookView, s: Side)
    requires BookShape(om, lm, loc, v)
    ensures SideOk(lm, s, v.On(s))
  {
  }

  lemma ListedLevels(om: seq<Cell<Order>>, lm: seq<Cell<Level>>, loc: u16, v: BookView)
    requires BookShape(om, lm, loc, v)
    ensures forall l :: l in v.fifo <==> l in v.bid.list || l in v.ask.list
  {
  }

  /** Sortedness does not depend on the new slot. */
  lemma SortsAtFrame(lm: seq<Cell<Level>>, lm1: seq<Cell<Level>>, s: Side, list: seq<Ptr>, px: u32, k: nat, l: Ptr)
    requires SortsAt(lm1, s, list, px, k) && l !in list
    requires |lm1| == |lm| && 0 <= l < |lm| && lm1 == lm[l := lm1[l]]
    ensures SortsAt(lm, s, list, px, k)
  {
  }

  lemma NextIsLive(lm: seq<Cell<Level>>, list: seq<Ptr>, k: nat)
    requires Linked(lm, list) && k < |list|
    ensures Live(lm, list[k]) && lm[list[k]].next == At(list, k + 1)
    ensures k + 1 < |list| ==> Live(lm, list[k + 1])
    ensures list[k] != NULL
  {
    assert k + 1 < |list| ==> Live(lm, list[k + 1]);
  }
}
