/** The engine: one book per instrument, two pools and one index shared by all of them, and the counters.
    Every event handler is exactly one step of the market the engine's memory stands for. */
module MatchingEngines {
  import opened Types
  import opened FlatHashMaps
  import opened MemoryPools
  import opened BookShapes
  import opened OrderBooks
  import opened OrderIndexes
  import opened Markets
  import opened MarketInvariants
  import opened EngineShapes
  import opened BookTotals

  const MAX_INSTRUMENTS := 0x1_0000

  class Instrument {
    const locate: u16
    var book: OrderBook?

    constructor (locate: u16)
      ensures this.locate == locate && book == null
    {
      this.locate := locate;
      book := null;
    }
  }

  class InstrumentMap {
    const slots: array<Instrument?>
    var count: nat

    constructor ()
      ensures slots.Length == MAX_INSTRUMENTS && fresh(slots)
      ensures forall i :: 0 <= i < slots.Length ==> slots[i] == null
    {
      slots := new Instrument?[MAX_INSTRUMENTS](_ => null);
      count := 0;
    }

    method GetOrCreate(loc: u16) returns (inst: Instrument)
      requires slots.Length == MAX_INSTRUMENTS
      modifies this, slots
      ensures slots[..] == old(slots[..])[loc := inst] && count == old(count) + if old(slots[loc]) == null then 1 else 0
      ensures old(slots[loc]) != null ==> inst == old(slots[loc])
      ensures old(slots[loc]) == null ==> fresh(inst) && inst.locate == loc && inst.book == null
    {
      if slots[loc] == null {
        slots[loc] := new Instrument(loc);
        count := count + 1;
      }
      inst := slots[loc];
      assert slots[..] == old(slots[..])[loc := inst];
    }
  }

  /** The instrument of loc is there, made if it was not, and all others are as they were. */
  ghost predicate Registered(before: seq<Instrument?>, after: seq<Instrument?>, loc: u16) {
    && |after| == |before| == MAX_INSTRUMENTS && after[loc] != null
    && after == before[loc := after[loc]] && (before[loc] != null ==> after == before)
  }

  /** Each book belongs to its instrument and shares no object with the other books, the instruments or the
      engine's own objects. */
  ghost predicate Separate(books: map<u16, OrderBook>, base: set<object>, made: set<Instrument>) {
    && (forall loc :: loc in books ==> books[loc].home == loc && books[loc].Repr() !! base && books[loc].Repr() !! made)
    && (forall loc, loc' :: loc in books && loc' in books && loc != loc' ==> books[loc].Repr() !! books[loc'].Repr())
  }

  lemma SeparateFromInstrument(books: map<u16, OrderBook>, base: set<object>, made: set<Instrument>, inst: Instrument)
    requires Separate(books, base, made)
    ensures Separate(books, base, made + {inst})
  {
    forall loc | loc in books
      ensures inst !in books[loc].Repr()
    {
      NotAnInstrument(books[loc], inst);
    }
  }

  lemma SeparateFromBook(books: map<u16, OrderBook>, base: set<object>, made: set<Instrument>, loc: u16, b: OrderBook)
    requires Separate(books, base, made) && loc !in books && b.home == loc
    requires b.Repr() !! base && b.Repr() !! made
    requires forall x :: x in books ==> b.Repr() !! books[x].Repr()
    ensures Separate(books[loc := b], base, made)
  {
    hide OrderBook.Repr;
  }

  lemma NotAnInstrument(b: OrderBook, inst: Instrument)
    ensures inst !in b.Repr()
  {
  }

  class MatchingEngine {
    const instruments: InstrumentMap
    const orderPool: MemoryPool<Order>
    const levelPool: MemoryPool<Level>
    const index: DirectOrderIndex
    const mapCapacity: nat
    const hash: u32 -> nat
    var stats: EngineStats
    ghost var made: set<Instrument>
    ghost var books: map<u16, OrderBook>
    ghost var places: map<Key, Ptr>

    // ---- objects ----

    ghost function Shared(): set<object> {
      {instruments, instruments.slots, orderPool, orderPool.storage, levelPool, levelPool.storage, index, index.slots}
    }

    ghost function Base(): set<object> {
      Shared() + {this}
    }

    ghost function BookObjects(): set<object>
      reads this`books
    {
      set loc, x | loc in books && x in books[loc].Repr() :: x
    }

    ghost function Repr(): set<object>
      reads this`books, this`made
    {
      Base() + made + BookObjects()
    }

    ghost predicate ArraysApart() {
      && orderPool.storage as object != levelPool.storage
      && orderPool.storage as object != index.slots && levelPool.storage as object != index.slots
      && orderPool.storage as object != instruments.slots && levelPool.storage as object != instruments.slots
      && index.slots as object != instruments.slots
    }

    /** The book of each instrument that has one, and no sharing between books. */
    ghost predicate BooksApart()
      reads this`books, this`made
    {
      Separate(books, Base(), made)
    }

    ghost predicate InstrumentsOk()
      reads this`books, this`made, instruments, instruments.slots, made
    {
      && instruments.slots.Length == MAX_INSTRUMENTS
      && (forall i :: 0 <= i < MAX_INSTRUMENTS && instruments.slots[i] != null ==>
            var inst := instruments.slots[i];
            inst in made && inst.locate == i && (inst.book != null <==> i in books)
                && (i in books ==> books[i] == inst.book))
      && (forall loc :: loc in books ==> instruments.slots[loc] != null)
    }

    ghost predicate BooksValid()
      reads this`books, BookObjects()
    {
      forall loc :: loc in books ==> books[loc].Valid() && books[loc].MapCapacity() == mapCapacity
    }

    /** Everything about the objects except what their contents mean. */
    ghost predicate Struct()
      reads this`books, this`made, Shared() + made + BookObjects()
    {
      && ArraysApart() && BooksApart() && InstrumentsOk() && BooksValid()
      && orderPool.Valid() && levelPool.Valid() && index.Ok(orderPool.storage[..])
      && orderPool.capacity <= 0xFFFF_FFFF && mapCapacity > 0
    }

    ghost function Views(): map<u16, BookView>
      reads this`books, BookObjects()
    {
      map loc | loc in books :: (assert books[loc].Repr() <= BookObjects(); books[loc].View())
    }

    ghost function Mem(): Memory
      reads Repr()
    {
      Memory(orderPool.storage[..], levelPool.storage[..], index.ids, Views(), places)
    }

    // ---- the invariant ----

    function Capacities(): Limits {
      Limits(orderPool.capacity, levelPool.capacity, mapCapacity)
    }

    ghost function Current(): State
      reads Repr()
      requires IndexedWait(Mem())
    {
      State(MarketOf(Mem()), stats)
    }

    /** Allocated slots are exactly the live orders, the live levels and the order slots in transit. */
    ghost predicate Balanced(transit: nat)
      reads Repr()
    {
      && |index.ids| + |orderPool.free| + transit == orderPool.capacity
      && |places| + |levelPool.free| == levelPool.capacity
    }

    /** The live counters are exact and the peaks are not below them. */
    ghost predicate Counted()
      reads Repr()
    {
      && stats.liveOrders == |index.ids| <= stats.peakLiveOrders
      && stats.liveLevels == |places| <= stats.peakLiveLevels
    }

    /** The invariant with some order slots acquired and not yet, or no longer, in use. */
    ghost predicate SoundBut(transit: nat)
      reads Repr()
    {
      Struct() && Coherent(Mem()) && Balanced(transit) && Counted()
    }

    ghost predicate Sound()
      reads Repr()
    {
      SoundBut(0)
    }

    ghost predicate Valid()
      reads Repr()
    {
      Sound() && WellFormed(Capacities(), Current())
    }

    /** The state of a valid engine. */
    ghost function Now(): State
      reads Repr()
      requires Valid()
    {
      Current()
    }

    /** An engine without instruments and with all slots free stands for the empty market. */
    constructor (orderCapacity: nat, levelCapacity: nat, indexCapacity: nat, mapCapacity: nat, hash: u32 -> nat)
      requires orderCapacity <= 0xFFFF_FFFF && indexCapacity > 0 && mapCapacity > 0
      ensures Valid() && Now() == INITIAL && Repr() == Base()
      ensures Capacities() == Limits(orderCapacity, levelCapacity, mapCapacity)
      ensures fresh(instruments) && fresh(instruments.slots) && fresh(index) && fresh(index.slots)
      ensures fresh(orderPool) && fresh(orderPool.storage) && fresh(levelPool) && fresh(levelPool.storage)
    {
      hide FreeList, Indexes, Coherent, WellFormed, IndexedWait, MarketOf;
      this.mapCapacity, this.hash := mapCapacity, hash;
      instruments := new InstrumentMap();
      orderPool := new MemoryPool<Order>(orderCapacity);
      levelPool := new MemoryPool<Level>(levelCapacity);
      index := new DirectOrderIndex(indexCapacity);
      stats := ZERO_STATS;
      made, books, places := {}, map[], map[];
      new;
      Establish();
    }

    lemma Establish()
      requires ArraysApart() && made == {} && books == map[] && places == map[] && stats == ZERO_STATS
      requires instruments.slots.Length == MAX_INSTRUMENTS
      requires forall i :: 0 <= i < MAX_INSTRUMENTS ==> instruments.slots[i] == null
      requires orderPool.Valid() && levelPool.Valid() && index.Ok(orderPool.storage[..]) && index.ids == map[]
      requires orderPool.capacity <= 0xFFFF_FFFF && mapCapacity > 0
      requires |orderPool.free| == orderPool.capacity && |levelPool.free| == levelPool.capacity
      ensures Valid() && Now() == INITIAL && Repr() == Base()
    {
      hide FreeList, Indexes, Coherent, WellFormed, IndexedWait, MarketOf;
      assert BookObjects() == {} && Views() == map[];
      EmptyIsCoherent(orderPool.storage[..], levelPool.storage[..]);
      InitialIsWellFormed(Capacities());
    }

    // ---- one book, seen from the engine ----

    method BookAdd(b: OrderBook, loc: u16, o: Ptr) returns (rc: int, ghost l: Ptr)
      requires Struct() && loc in books && books[loc] == b
      requires BookOk(orderPool.storage[..], levelPool.storage[..], loc, b.View())
      requires Live(orderPool.storage[..], o) && orderPool.storage[o].value.locate == loc && !InBook(b.View(), o)
      requires HasRoom(b.View(), orderPool.storage[o].value, mapCapacity, levelPool.free)
      modifies b.Repr(), levelPool, levelPool.storage, orderPool.storage
      ensures Struct() && BookOk(orderPool.storage[..], levelPool.storage[..], loc, b.View())
      ensures Mem() == old(Mem()).(om := orderPool.storage[..], lm := levelPool.storage[..],
                                   books := old(Mem()).books[loc := b.View()])
      ensures AddEffect(old(b.Now(levelPool, orderPool)), b.Now(levelPool, orderPool), o, rc, l)
    {
      hide BookOk, InBook, OrdersKept, LevelsKept, Arrived, Departed, FreeList, Indexes, BooksApart, BooksValid,
           InstrumentsOk, OrderBook.Valid, OrderBook.View, OrderBook.MapCapacity, OrderBook.Apart, HasRoom, AddEffect,
           RemoveEffect, ExecuteEffect;
      ghost var om, lm, v := orderPool.storage[..], levelPool.storage[..], b.View();
      ghost var before := b.Now(levelPool, orderPool);
      BookParts(loc);
      OthersApart(loc);
      rc, l := b.AddOrder(o, levelPool, orderPool);
      AddKeepsOrders(before, b.Now(levelPool, orderPool), o, rc, l);
      OtherBooksKept(loc);
      SharedFrame(om, orderPool.storage[..], lm, loc, v, o, orderPool.head, orderPool.free,
                  index.slots[..], index.overflow, index.ids);
      InstrumentsKept();
    }

    method BookRemove(b: OrderBook, loc: u16, o: Ptr) returns (rc: int, ghost l: Ptr)
      requires Struct() && loc in books && books[loc] == b
      requires BookOk(orderPool.storage[..], levelPool.storage[..], loc, b.View())
      requires Live(orderPool.storage[..], o) && InBook(b.View(), o)
      modifies b.Repr(), levelPool, levelPool.storage, orderPool.storage
      ensures Struct() && BookOk(orderPool.storage[..], levelPool.storage[..], loc, b.View())
      ensures Mem() == old(Mem()).(om := orderPool.storage[..], lm := levelPool.storage[..],
                                   books := old(Mem()).books[loc := b.View()])
      ensures RemoveEffect(old(b.Now(levelPool, orderPool)), b.Now(levelPool, orderPool), o, rc, l)
    {
      hide BookOk, InBook, OrdersKept, LevelsKept, Arrived, Departed, FreeList, Indexes, BooksApart, BooksValid,
           InstrumentsOk, OrderBook.Valid, OrderBook.View, OrderBook.MapCapacity, OrderBook.Apart, HasRoom, AddEffect,
           RemoveEffect, ExecuteEffect;
      ghost var om, lm, v := orderPool.storage[..], levelPool.storage[..], b.View();
      ghost var before := b.Now(levelPool, orderPool);
      BookParts(loc);
      OthersApart(loc);
      rc, l := b.RemoveOrder(o, levelPool, orderPool);
      RemoveKeepsOrders(before, b.Now(levelPool, orderPool), o, rc, l);
      OtherBooksKept(loc);
      SharedFrame(om, orderPool.storage[..], lm, loc, v, o, orderPool.head, orderPool.free,
                  index.slots[..], index.overflow, index.ids);
      InstrumentsKept();
    }

    method BookTake(b: OrderBook, loc: u16, o: Ptr, qty: u32, cancel: bool) returns (rc: int, ghost l: Ptr)
      requires Struct() && loc in books && books[loc] == b
      requires BookOk(orderPool.storage[..], levelPool.storage[..], loc, b.View())
      requires Live(orderPool.storage[..], o) && InBook(b.View(), o)
      modifies b.Repr(), levelPool, levelPool.storage, orderPool.storage
      ensures Struct() && BookOk(orderPool.storage[..], levelPool.storage[..], loc, b.View())
      ensures Mem() == old(Mem()).(om := orderPool.storage[..], lm := levelPool.storage[..],
                                   books := old(Mem()).books[loc := b.View()])
      ensures ExecuteEffect(old(b.Now(levelPool, orderPool)), b.Now(levelPool, orderPool), o, qty, rc, l)
    {
      hide BookOk, InBook, OrdersKept, LevelsKept, Arrived, Departed, FreeList, Indexes, BooksApart, BooksValid,
           InstrumentsOk, OrderBook.Valid, OrderBook.View, OrderBook.MapCapacity, OrderBook.Apart, HasRoom, AddEffect,
           RemoveEffect, ExecuteEffect;
      ghost var om, lm, v := orderPool.storage[..], levelPool.storage[..], b.View();
      ghost var before := b.Now(levelPool, orderPool);
      BookParts(loc);
      OthersApart(loc);
      rc, l := b.TakeFrom(o, qty, cancel, levelPool, orderPool);
      ExecuteKeepsOrders(before, b.Now(levelPool, orderPool), o, qty, rc, l);
      OtherBooksKept(loc);
      SharedFrame(om, orderPool.storage[..], lm, loc, v, o, orderPool.head, orderPool.free,
                  index.slots[..], index.overflow, index.ids);
      InstrumentsKept();
    }

    method BookVisit(b: OrderBook, loc: u16) returns (visited: seq<Ptr>)
      requires Struct() && loc in books && books[loc] == b && b.Ok(levelPool, orderPool)
      ensures Struct() && Mem() == old(Mem())
      ensures var v := b.View(); visited == Walk(v.bid.list, v.fifo) + Walk(v.ask.list, v.fifo)
    {
      hide BookOk, Walk, FreeList, Indexes, BooksApart, BooksValid, InstrumentsOk, OrderBook.Valid, OrderBook.View,
           OrderBook.MapCapacity, OrderBook.Apart, OrderBook.Ok;
      ghost var views := Views();
      BooksOffBase();
      visited := b.ForEachOrder(levelPool, orderPool);
      forall x | x in books
        ensures books[x].Valid() && books[x].MapCapacity() == mapCapacity && books[x].View() == views[x]
      {
        BookUntouched(books[x]);
      }
      ViewsKept(views);
      InstrumentsKept();
    }

    /** clear_levels, after the orders of the book are gone; om is the order memory from before. */
    method BookClear(b: OrderBook, loc: u16, ghost om: seq<Cell<Order>>)
      requires Struct() && loc in books && books[loc] == b && BookShape(om, levelPool.storage[..], loc, b.View())
      modifies b.Repr(), levelPool, levelPool.storage
      ensures Struct()
      ensures Mem() == old(Mem()).(lm := levelPool.storage[..], books := old(Mem()).books[loc := EMPTY_BOOK])
      ensures |levelPool.free| == |old(levelPool.free)| + |old(b.View()).bid.list| + |old(b.View()).ask.list|
      ensures LevelsKept(old(levelPool.storage[..]), levelPool.storage[..], old(b.View()), NULL)
    {
      hide BookShape, LevelsKept, FreeList, Walk, MemoryPool.Valid, DirectOrderIndex.Ok, Indexes, BooksApart,
           BooksValid, InstrumentsOk, OrderBook.Valid, OrderBook.View, OrderBook.MapCapacity, OrderBook.Apart, BookOk,
           EMPTY_BOOK;
      BookParts(loc);
      OthersApart(loc);
      b.ClearLevels(levelPool, om);
      InstrumentsKept();
      forall x | x in books && x != loc
        ensures Untouched(books[x])
      {
        assert books[x].Repr() !! b.Repr();
      }
      OtherBooksKept(loc);
      assert Struct();
    }

    // ---- slots and ids, seen from the engine ----

    /** Writing the engine's shared objects leaves the books as they were. */
    method Construct(p: Ptr, x: Order)
      requires Struct() && 0 <= p < orderPool.capacity && p !in orderPool.free && !Live(orderPool.storage[..], p)
      modifies orderPool.storage
      ensures Struct()
      ensures Mem() == old(Mem()).(om := old(orderPool.storage[..])[p := Object(x, NULL, NULL)])
    {
      hide FreeList, Indexes, BooksApart, BooksValid, InstrumentsOk, OrderBook.Valid, OrderBook.View,
           OrderBook.MapCapacity;
      ghost var om, views := orderPool.storage[..], Views();
      BooksOffBase();
      orderPool.storage[p] := Object(x, NULL, NULL);
      forall loc | loc in books
        ensures books[loc].Valid() && books[loc].MapCapacity() == mapCapacity && books[loc].View() == views[loc]
      {
        BookUntouched(books[loc]);
      }
      ViewsKept(views);
      InstrumentsKept();
      FreeListFrame(om, orderPool.storage[..], orderPool.head, orderPool.free);
      ConstructedIndex(om, orderPool.storage[..], index.slots[..], index.overflow, index.ids, p);
    }

    /** A slot in transit goes back to the pool. */
    method Discard(p: Ptr)
      requires Struct() && 0 <= p < orderPool.capacity && p !in orderPool.free
      requires forall id :: id in index.ids ==> index.ids[id] != p
      modifies orderPool, orderPool.storage
      ensures Struct() && orderPool.free == [p] + old(orderPool.free)
      ensures orderPool.storage[p].Node?
      ensures Mem() == old(Mem()).(om := old(orderPool.storage[..])[p := orderPool.storage[p]])
    {
      hide FreeList, Indexes, BooksApart, BooksValid, InstrumentsOk, OrderBook.Valid, OrderBook.View,
           OrderBook.MapCapacity;
      ghost var om, views := orderPool.storage[..], Views();
      BooksOffBase();
      orderPool.Release(p);
      forall loc | loc in books
        ensures books[loc].Valid() && books[loc].MapCapacity() == mapCapacity && books[loc].View() == views[loc]
      {
        BookUntouched(books[loc]);
      }
      ViewsKept(views);
      InstrumentsKept();
      UnindexedWrite(om, orderPool.storage[..], index.slots[..], index.overflow, index.ids, p);
    }

    /** A live order leaves the index, which still reads its id, and then its slot is released. */
    method Retire(id: OrderId, o: Ptr)
      requires Struct() && id in index.ids && index.ids[id] == o && o !in orderPool.free
      requires Live(orderPool.storage[..], o) && orderPool.storage[o].value.id == id
      modifies index, index.slots, orderPool, orderPool.storage
      ensures Struct() && orderPool.free == [o] + old(orderPool.free)
      ensures index.ids == old(index.ids) - {id} && orderPool.storage[o].Node?
      ensures Mem() == old(Mem()).(om := old(orderPool.storage[..])[o := orderPool.storage[o]], ids := index.ids)
    {
      hide Struct, Views;
      CapacityIs();
      UnindexOrder(id, o);
      Discard(o);
    }

    method UnindexOrder(id: OrderId, o: Ptr)
      requires Struct() && id in index.ids && index.ids[id] == o
      requires Live(orderPool.storage[..], o) && orderPool.storage[o].value.id == id
      modifies index, index.slots
      ensures Struct() && index.ids == old(index.ids) - {id} && Mem() == old(Mem()).(ids := index.ids)
      ensures forall x :: x in index.ids ==> index.ids[x] != o
    {
      hide FreeList, Indexes, HitsDirect, Accepts, BooksApart, BooksValid, InstrumentsOk, OrderBook.Valid,
           OrderBook.View, OrderBook.MapCapacity;
      ghost var views, ids := Views(), index.ids;
      BooksOffBase();
      var _ := index.Erase(id, orderPool);
      ErasedNowhere(orderPool.storage[..], index.slots[..], index.overflow, ids, id, o);
      forall loc | loc in books
        ensures books[loc].Valid() && books[loc].MapCapacity() == mapCapacity && books[loc].View() == views[loc]
      {
        BookUntouched(books[loc]);
      }
      ViewsKept(views);
      InstrumentsKept();
    }

    method IndexOrder(id: OrderId, o: Ptr) returns (ok: bool)
      requires Struct() && id !in index.ids
      requires Live(orderPool.storage[..], o) && orderPool.storage[o].value.id == id
      modifies index, index.slots
      ensures Struct() && ok
      ensures index.ids == old(index.ids)[id := o] && Mem() == old(Mem()).(ids := index.ids)
    {
      hide FreeList, Indexes, HitsDirect, Accepts, BooksApart, BooksValid, InstrumentsOk, OrderBook.Valid,
           OrderBook.View, OrderBook.MapCapacity, DirectOrderIndex.Ok;
      ghost var views := Views();
      BooksOffBase();
      ok := index.Insert(id, o, orderPool);
      forall loc | loc in books
        ensures books[loc].Valid() && books[loc].MapCapacity() == mapCapacity && books[loc].View() == views[loc]
      {
        BookUntouched(books[loc]);
      }
      ViewsKept(views);
      InstrumentsKept();
    }

    // ---- whole changes ----

    /** What execute, cancel, delete and replace do once the book has let an order go: the id leaves the index,
        then the slot goes back, then the live counters follow. */
    method Depart(id: OrderId, o: Ptr, rc: int, ghost l: Ptr, ghost s: Memory, ghost free: seq<Ptr>, ghost x: Order,
                  ghost transit: nat)
      requires Struct() && x.id == id && Departing(s, free, Mem(), levelPool.free, o, x, rc, l)
      requires |s.ids| + |orderPool.free| + transit == orderPool.capacity && |s.places| + |free| == levelPool.capacity
      requires stats.liveOrders == |s.ids| <= stats.peakLiveOrders
               && stats.liveLevels == |s.places| <= stats.peakLiveLevels
      modifies this`stats, this`places, index, index.slots, orderPool, orderPool.storage
      ensures SoundBut(transit)
      ensures id in MarketOf(s).orders && MarketOf(s).orders[id] == RestOf(x)
      ensures MarketOf(Mem()) == Leave(MarketOf(s), id)
      ensures stats == Recount(old(stats), MarketOf(Mem()))
      ensures orderPool.free == [o] + old(orderPool.free) && levelPool.free == old(levelPool.free)
      ensures index.ids == old(index.ids) - {id}
      ensures 0 <= o < orderPool.storage.Length
      ensures orderPool.storage[..] == old(orderPool.storage[..])[o := orderPool.storage[o]]
    {
      hide Struct, Views, Coherent, Departing, Leave, MarketOf, IndexedWait, BooksOk, WaitingIndexed, PlacesTabled;
      ghost var s' := Mem();
      DepartingLive(s, free, s', levelPool.free, o, x, rc, l);
      LiveIsNotFree(o);
      RemovalSize(s.ids, id);
      RemovalSize(s.places, PlaceOf(x));
      Retire(id, o);
      CleanedRefines(s, free, s', levelPool.free, o, x, rc, l, orderPool.storage[..]);
      CountDeparture(rc, PlaceOf(x));
      assert Mem() == Cleaned(s', orderPool.storage[..], x, rc);
      CoherentParts(Mem());
      MarketSizes(Mem());
      assert index.ids == s.ids - {id};
    }

    /** The live counters after a departure. Neither guard can fail. */
    method CountDeparture(rc: int, ghost k: Key)
      requires Struct() && stats.liveOrders > 0 && (rc == 2 ==> stats.liveLevels > 0)
      modifies this`stats, this`places
      ensures Struct() && Mem() == old(Mem()).(places := places)
      ensures places == if rc == 2 then old(places) - {k} else old(places)
      ensures stats == old(stats).(liveOrders := old(stats).liveOrders - 1,
                                   liveLevels := old(stats).liveLevels - if rc == 2 then 1 else 0)
    {
      hide BooksApart, BooksValid, InstrumentsOk, OrderBook.Valid, OrderBook.View, OrderBook.MapCapacity,
           MemoryPool.Valid, DirectOrderIndex.Ok;
      ThisIsApart();
      if stats.liveOrders > 0 { stats := stats.(liveOrders := stats.liveOrders - 1); }
      if rc == 2 && stats.liveLevels > 0 { stats := stats.(liveLevels := stats.liveLevels - 1); }
      places := if rc == 2 then places - {k} else places;
    }

    /** What add and replace do once the book has taken an order in: the id enters the index, and the live
        counters and their peaks follow. */
    method Enter(id: OrderId, o: Ptr, rc: int, ghost l: Ptr, ghost s: Memory, ghost free: seq<Ptr>, ghost x: Order)
      requires Struct() && x.id == id && Arriving(s, free, Mem(), levelPool.free, o, x, rc, l)
      requires |s.ids| + 1 + |orderPool.free| == orderPool.capacity && |s.places| + |free| == levelPool.capacity
      requires stats.liveOrders == |s.ids| <= stats.peakLiveOrders
               && stats.liveLevels == |s.places| <= stats.peakLiveLevels
      modifies this`stats, this`places, index, index.slots
      ensures Sound()
      ensures MarketOf(Mem()) == Arrive(MarketOf(s), id, RestOf(x))
      ensures stats == Recount(old(stats), MarketOf(Mem()))
    {
      hide Struct, Views, Coherent, Arriving, Arrive, MarketOf, IndexedWait, BooksOk, WaitingIndexed, PlacesTabled;
      ghost var s' := Mem();
      ArrivingLive(s, free, s', levelPool.free, o, x, rc, l);
      var ok := IndexOrder(id, o);
      if !ok {
        // The code would roll the book insertion back here; the index never refuses an id it does not hold.
        assert false;
      }
      EnteredRefines(s, free, s', levelPool.free, o, x, rc, l);
      CountArrival(rc, PlaceOf(x), l);
      assert Mem() == Entered(s', o, x, l);
      CoherentParts(Mem());
      MarketSizes(Mem());
    }

    method CountArrival(rc: int, ghost k: Key, ghost l: Ptr)
      requires Struct()
      modifies this`stats, this`places
      ensures Struct() && Mem() == old(Mem()).(places := places) && places == old(places)[k := l]
      ensures stats == old(stats).(
                liveOrders := old(stats).liveOrders + 1,
                liveLevels := old(stats).liveLevels + (if rc == 2 then 1 else 0),
                peakLiveOrders := Max(old(stats).peakLiveOrders, old(stats).liveOrders + 1),
                peakLiveLevels := if rc == 2 then Max(old(stats).peakLiveLevels, old(stats).liveLevels + 1)
                    else old(stats).peakLiveLevels)
    {
      hide BooksApart, BooksValid, InstrumentsOk, OrderBook.Valid, OrderBook.View, OrderBook.MapCapacity,
           MemoryPool.Valid, DirectOrderIndex.Ok;
      ThisIsApart();
      if rc == 2 {
        stats := stats.(liveLevels := stats.liveLevels + 1);
        if stats.liveLevels > stats.peakLiveLevels { stats := stats.(peakLiveLevels := stats.liveLevels); }
      }
      stats := stats.(liveOrders := stats.liveOrders + 1);
      if stats.liveOrders > stats.peakLiveOrders { stats := stats.(peakLiveOrders := stats.liveOrders); }
      places := places[k := l];
    }

    lemma ThisIsApart()
      requires Struct()
      ensures this !in BookObjects()
    {
    }

    lemma LiveIsNotFree(p: Ptr)
      requires Struct() && Live(orderPool.storage[..], p)
      ensures p !in orderPool.free
    {
      FreeSlotsHoldLinks(orderPool.storage[..], orderPool.head, orderPool.free);
    }

    lemma BooksOffBase()
      requires Struct()
      ensures BooksApart()
      ensures forall x :: x in books ==>
                books[x].Repr() !! Base() && books[x].Valid() && books[x].MapCapacity() == mapCapacity
                    && books[x].View() == Views()[x]
    {
    }

    lemma ViewsKept(views: map<u16, BookView>)
      requires views.Keys == books.Keys
      requires forall x :: x in books ==>
                 books[x].Valid() && books[x].MapCapacity() == mapCapacity && books[x].View() == views[x]
      ensures BooksValid() && Views() == views
    {
      hide OrderBook.Valid, OrderBook.View, OrderBook.MapCapacity;
    }

    lemma BookParts(loc: u16)
      requires Struct() && loc in books
      ensures books[loc].Valid() && books[loc].home == loc && books[loc].Apart(levelPool, orderPool)
      ensures books[loc].MapCapacity() == mapCapacity && books[loc].Repr() !! Base()
    {
    }

    twostate lemma InstrumentsKept()
      requires old(InstrumentsOk()) && unchanged(this) && unchanged(instruments) && unchanged(instruments.slots)
      requires forall inst :: inst in old(made) ==> unchanged(inst)
      ensures InstrumentsOk()
    {
    }

    lemma OthersApart(loc: u16)
      requires Struct() && loc in books
      ensures BooksApart() && index !in books[loc].Repr() && index.slots !in books[loc].Repr()
      ensures orderPool !in books[loc].Repr() && this !in books[loc].Repr()
      ensures books[loc].Repr() !! made
      ensures forall x :: x in books && x != loc ==>
                books[x].Repr() !! books[loc].Repr() && books[x].Repr() !! Base()
                && books[x].Valid() && books[x].MapCapacity() == mapCapacity && books[x].View() == Views()[x]
    {
    }

    /** An operation on one book leaves the views of the others as they were. */
    twostate lemma OtherBooksKept(loc: u16)
      requires old(BooksValid()) && unchanged(this) && loc in books
      requires books[loc].Valid() && books[loc].MapCapacity() == mapCapacity
      requires forall x :: x in books && x != loc ==> Untouched(books[x])
      ensures BooksValid() && Views() == old(Views())[loc := books[loc].View()]
    {
      hide OrderBook.Valid, OrderBook.View, OrderBook.MapCapacity, OrderBook.Repr, Views, BooksValid;
      ghost var views := old(Views());
      OldViews(views);
      forall x | x in books && x != loc
        ensures books[x].Valid() && books[x].MapCapacity() == mapCapacity && books[x].View() == views[x]
      {
        ObjectsUntouched(books[x]);
      }
      ViewsAfter(loc, views);
    }

    twostate lemma OldViews(views: map<u16, BookView>)
      requires old(BooksValid()) && unchanged(this) && views == old(Views())
      ensures views.Keys == books.Keys
      ensures forall x :: x in books ==> old(books[x].Valid()) && books[x].MapCapacity() == mapCapacity
                                         && old(books[x].View()) == views[x]
    {
      hide OrderBook.Valid, OrderBook.View, OrderBook.MapCapacity, OrderBook.Repr;
    }

    lemma ViewsAfter(loc: u16, views: map<u16, BookView>)
      requires loc in books && books[loc].Valid() && books[loc].MapCapacity() == mapCapacity
      requires forall x :: x in books <==> x in views || x == loc
      requires forall x :: x in books && x != loc ==>
                 books[x].Valid() && books[x].MapCapacity() == mapCapacity && books[x].View() == views[x]
      ensures BooksValid() && Views() == views[loc := books[loc].View()]
    {
      hide FlatHashMap.Valid;
    }

    // ---- event handlers ----

    /** Counting leaves the live counters and everything else alone. */
    method Count(now: EngineStats)
      requires Sound()
      requires now.liveOrders == stats.liveOrders && now.liveLevels == stats.liveLevels
      requires now.peakLiveOrders == stats.peakLiveOrders && now.peakLiveLevels == stats.peakLiveLevels
      modifies this`stats
      ensures Sound() && Mem() == old(Mem()) && stats == now
    {
      hide BooksApart, BooksValid, InstrumentsOk, OrderBook.Valid, OrderBook.View, OrderBook.MapCapacity,
           MemoryPool.Valid, DirectOrderIndex.Ok, Coherent;
      ThisIsApart();
      stats := now;
    }

    lemma SoundFacts()
      requires Sound()
      ensures SoundBut(0) && Struct() && InstrumentsOk() && index.Ok(orderPool.storage[..])
      ensures Coherent(Mem()) && IndexedWait(Mem())
      ensures MarketOf(Mem()).orders.Keys == index.ids.Keys && MarketOf(Mem()).queues.Keys == places.Keys
      ensures this !in BookObjects() && forall loc :: loc in books ==> books[loc].Repr() <= BookObjects()
    {
      hide BooksOk, WaitingIndexed, PlacesTabled;
      MarketSizes(Mem());
    }

    /** instruments_[loc] and its book; null when either is missing. */
    function BookOf(loc: u16): (b: OrderBook?)
      requires InstrumentsOk()
      reads this`books, this`made, instruments, instruments.slots, made
      ensures b == null <==> loc !in books
      ensures b != null ==> books[loc] == b
    {
      var inst := instruments.slots[loc];
      if inst == null then null else inst.book
    }

    /** The part that E, C and X share once the book is known: the fill, and the departure of a filled order. */
    method TakeFromBook(b: OrderBook, loc: u16, o: Ptr, id: OrderId, qty: u32, cancel: bool) returns (rc: int)
      requires Sound() && id in index.ids && index.ids[id] == o && Live(orderPool.storage[..], o)
      requires loc in books && books[loc] == b && orderPool.storage[o].value.locate == loc
      modifies b.Repr(), levelPool, levelPool.storage, orderPool, orderPool.storage, index, index.slots, this`stats,
               this`places
      ensures Sound() && rc >= 0 && books == old(books) && made == old(made)
      ensures id in old(MarketOf(Mem())).orders && MarketOf(Mem()) == Take(old(MarketOf(Mem())), id, qty)
      ensures stats == Recount(old(stats), MarketOf(Mem()))
    {
      hide Struct, Views, Coherent, Take, MarketOf, BookOk, InBook, ExecuteEffect, Departing, ReductionStep,
           OrderBook.View, BooksOk, IndexedWait, WaitingIndexed, PlacesTabled, Recount, OrderBook.Repr;
      ghost var s, free, x := Mem(), levelPool.free, orderPool.storage[o].value;
      FoundOrder(s, id);
      ViewIs(loc);
      OffBook(loc);
      ghost var l;
      rc, l := BookTake(b, loc, o, qty, cancel);
      ViewIs(loc);
      ExecutedStep(s, free, Mem(), levelPool.free, o, x, qty, rc, l);
      FinishTake(id, o, qty, rc, l, s, free, x);
    }

    method FinishTake(id: OrderId, o: Ptr, qty: u32, rc: int, ghost l: Ptr, ghost s: Memory, ghost free: seq<Ptr>,
                      ghost x: Order)
      requires Struct() && x.id == id && Coherent(s) && index.ids == s.ids && places == s.places
      requires rc == 0 ==> levelPool.free == free && ReductionStep(s, Mem().om, Mem().lm, l, o, x, qty)
                           && Mem() == s.(om := Mem().om, lm := Mem().lm)
      requires rc != 0 ==> Departing(s, free, Mem(), levelPool.free, o, x, rc, l) && rc in {1, 2}
      requires rc == 0 <==> qty < x.shares
      requires |s.ids| + |orderPool.free| == orderPool.capacity && |s.places| + |free| == levelPool.capacity
      requires stats.liveOrders == |s.ids| <= stats.peakLiveOrders
               && stats.liveLevels == |s.places| <= stats.peakLiveLevels
      modifies this`stats, this`places, index, index.slots, orderPool, orderPool.storage
      ensures Sound()
      ensures id in MarketOf(s).orders && MarketOf(Mem()) == Take(MarketOf(s), id, qty)
      ensures stats == Recount(old(stats), MarketOf(Mem()))
    {
      hide Struct, Views, Coherent, Take, MarketOf, Departing, ReductionStep, BooksOk, IndexedWait, WaitingIndexed,
           PlacesTabled;
      CoherentParts(s);
      if rc > 0 {
        Depart(id, o, rc, l, s, free, x, 0);
        TakesAll(s, x, qty);
      } else {
        ghost var s' := Mem();
        ReductionRefines(s, s'.om, s'.lm, l, o, x, qty);
        CoherentParts(s');
        MarketSizes(s');
        TakesSome(s, x, qty);
      }
    }

    lemma OffBook(loc: u16)
      requires Struct() && loc in books
      ensures var r := books[loc].Repr();
              this !in r && index !in r && index.slots !in r && orderPool !in r && levelPool !in r
    {
    }

    lemma ViewIs(loc: u16)
      requires Struct() && loc in books
      ensures loc in Mem().books && books[loc].View() == Mem().books[loc]
    {
    }

    /** The opening of every handler for a live order: look the id up, count an unknown id or a wrong instrument
        number, and go on with the order's own instrument. */
    method Lookup(id: OrderId, locate: u16) returns (o: Ptr, home: u16)
      requires Sound()
      modifies this`stats
      ensures Sound() && Mem() == old(Mem())
      ensures o == NULL <==> id !in index.ids
      ensures o == NULL ==> stats == CountUnknown(old(stats))
      ensures o != NULL ==>
                && index.ids[id] == o && Live(orderPool.storage[..], o) && orderPool.storage[o].value.locate == home
                && home in books && id in MarketOf(Mem()).orders && MarketOf(Mem()).orders[id].loc == home
                && stats == CountLocate(old(stats), home, locate)
    {
      hide Sound, Struct, Views, Coherent, MarketOf, BookOk, InBook, DirectOrderIndex.Ok, InstrumentsOk, BookObjects;
      SoundFacts();
      o := index.Find(id, orderPool);
      home := locate;
      if o == NULL {
        NullIsNotIndexed(id);
        Count(CountUnknown(stats));
        return;
      }
      FoundOrder(Mem(), id);
      HomeHasBook(orderPool.storage[o].value.locate);
      if orderPool.storage[o].value.locate != locate {
        Count(stats.(locateMismatches := stats.locateMismatches + 1));
        home := orderPool.storage[o].value.locate;
      }
    }

    /** What E, C and X do alike: everything but counting the accepted event. */
    method TakeEvent(locate: u16, id: OrderId, qty: u32, cancel: bool) returns (known: bool)
      requires Sound()
      modifies Repr()
      ensures Sound() && Repr() == old(Repr())
      ensures known <==> id in old(MarketOf(Mem())).orders
      ensures !known ==> Mem() == old(Mem()) && stats == CountUnknown(old(stats))
      ensures known ==>
                && MarketOf(Mem()) == Take(old(MarketOf(Mem())), id, qty)
                && stats == Recount(CountLocate(old(stats), old(MarketOf(Mem())).orders[id].loc, locate),
                    MarketOf(Mem()))
    {
      hide Sound, Struct, Mem, MarketOf, IndexedWait, Take, Recount, CountLocate, OrderBook.Repr, InstrumentsOk;
      SoundFacts();
      var o, home := Lookup(id, locate);
      if o == NULL {
        return false;
      }
      SoundFacts();
      var b := BookOf(home);
      if b == null {
        // An indexed order always has its book.
        assert false;
      }
      var rc := TakeFromBook(b, home, o, id, qty, cancel);
      if rc < 0 {
        // Its level is never missing.
        assert false;
      }
      return true;
    }

    /** Order Executed ('E'). */
    method OnOrderExecuted(locate: u16, id: OrderId, qty: u32, matchNumber: u64)
      requires Valid()
      modifies Repr()
      ensures Valid() && Repr() == old(Repr())
      ensures Now() == Step(Capacities(), old(Now()), Execute(locate, id, qty, matchNumber))
    {
      hide Sound, Struct, Mem, WellFormed, MarketOf, IndexedWait, Take, OrderBook.Repr, InstrumentsOk,
           DirectOrderIndex.Ok, Coherent, StepAdd, StepDelete, StepReplace, StepCross, BookObjects;
      SoundFacts();
      ghost var st := Current();
      var known := TakeEvent(locate, id, qty, false);
      if known {
        Count(stats.(orderExecuted := stats.orderExecuted + 1));
      }
      SoundFacts();
      assert Current() == Step(Capacities(), st, Execute(locate, id, qty, matchNumber));
      StepKeepsWellFormed(Capacities(), st, Execute(locate, id, qty, matchNumber));
    }

    /** Order Executed With Price ('C'): the book mechanics of 'E'; price and printability are informational. */
    method OnOrderExecutedWithPrice(locate: u16, id: OrderId, qty: u32, matchNumber: u64, printable: byte, px: u32)
      requires Valid()
      modifies Repr()
      ensures Valid() && Repr() == old(Repr())
      ensures Now() == Step(Capacities(), old(Now()), ExecuteAt(locate, id, qty, matchNumber, printable, px))
    {
      hide Sound, Struct, Mem, WellFormed, MarketOf, IndexedWait, Take, OrderBook.Repr, InstrumentsOk,
           DirectOrderIndex.Ok, Coherent, StepAdd, StepDelete, StepReplace, StepCross, BookObjects;
      SoundFacts();
      ghost var st := Current();
      var known := TakeEvent(locate, id, qty, false);
      if known {
        Count(stats.(orderExecutedWithPrice := stats.orderExecutedWithPrice + 1));
      }
      SoundFacts();
      assert Current() == Step(Capacities(), st, ExecuteAt(locate, id, qty, matchNumber, printable, px));
      StepKeepsWellFormed(Capacities(), st, ExecuteAt(locate, id, qty, matchNumber, printable, px));
    }

    /** Order Cancel ('X'). */
    method OnOrderCancel(locate: u16, id: OrderId, qty: u32)
      requires Valid()
      modifies Repr()
      ensures Valid() && Repr() == old(Repr())
      ensures Now() == Step(Capacities(), old(Now()), Cancel(locate, id, qty))
    {
      hide Sound, Struct, Mem, WellFormed, MarketOf, IndexedWait, Take, OrderBook.Repr, InstrumentsOk,
           DirectOrderIndex.Ok, Coherent, StepAdd, StepDelete, StepReplace, StepCross, BookObjects;
      SoundFacts();
      ghost var st := Current();
      var known := TakeEvent(locate, id, qty, true);
      if known {
        Count(stats.(orderCancel := stats.orderCancel + 1));
      }
      SoundFacts();
      assert Current() == Step(Capacities(), st, Cancel(locate, id, qty));
      StepKeepsWellFormed(Capacities(), st, Cancel(locate, id, qty));
    }

    /** What D and U do alike once the order is found: it leaves its book, the index and the pool. Other slots
        in transit stay as they are. */
    method RemoveFromBook(b: OrderBook, loc: u16, o: Ptr, id: OrderId, ghost transit: nat) returns (rc: int)
      requires SoundBut(transit) && id in index.ids && index.ids[id] == o && Live(orderPool.storage[..], o)
      requires loc in books && books[loc] == b && orderPool.storage[o].value.locate == loc
      modifies b.Repr(), levelPool, levelPool.storage, orderPool, orderPool.storage, index, index.slots, this`stats,
               this`places
      ensures SoundBut(transit) && rc > 0 && books == old(books) && made == old(made)
      ensures id in old(MarketOf(Mem())).orders && MarketOf(Mem()) == Leave(old(MarketOf(Mem())), id)
      ensures stats == Recount(old(stats), MarketOf(Mem()))
      ensures orderPool.free == [o] + old(orderPool.free) && index.ids == old(index.ids) - {id}
      ensures forall p :: 0 <= p < orderPool.capacity && !Live(old(orderPool.storage[..]), p) ==>
                p != o && !Live(orderPool.storage[..], p)
    {
      hide Struct, Views, Coherent, Leave, MarketOf, BookOk, InBook, RemoveEffect, Departing, OrderBook.View, BooksOk,
           IndexedWait, WaitingIndexed, PlacesTabled, Recount, OrderBook.Repr;
      ghost var s, free, x := Mem(), levelPool.free, orderPool.storage[o].value;
      FoundOrder(s, id);
      ViewIs(loc);
      OffBook(loc);
      ghost var l;
      rc, l := BookRemove(b, loc, o);
      ViewIs(loc);
      ghost var s' := Mem();
      RemovedStep(s, free, s', levelPool.free, o, x, rc, l);
      Depart(id, o, rc, l, s, free, x, transit);
      CapacityIs();
      forall p | 0 <= p < orderPool.capacity && !Live(s.om, p)
        ensures p != o && !Live(orderPool.storage[..], p)
      {
        EmptySlotsStayEmpty(s, free, s', levelPool.free, o, x, rc, l, orderPool.storage[..], p);
      }
    }

    lemma CapacityIs()
      requires Struct()
      ensures orderPool.storage.Length == orderPool.capacity && levelPool.storage.Length == levelPool.capacity
    {
    }

    /** Order Delete ('D'). */
    method OnOrderDelete(locate: u16, id: OrderId)
      requires Valid()
      modifies Repr()
      ensures Valid() && Repr() == old(Repr())
      ensures Now() == Step(Capacities(), old(Now()), Delete(locate, id))
    {
      hide Sound, SoundBut, Struct, Mem, WellFormed, MarketOf, IndexedWait, Leave, OrderBook.Repr, InstrumentsOk,
           DirectOrderIndex.Ok, Coherent, StepAdd, StepTake, StepReplace, StepCross;
      SoundFacts();
      ghost var st := Current();
      var o, home := Lookup(id, locate);
      if o != NULL {
        SoundFacts();
        var b := BookOf(home);
        if b == null {
          // An indexed order always has its book.
          assert false;
        }
        var rc := RemoveFromBook(b, home, o, id, 0);
        if rc == 0 {
          // Its level is never missing.
          assert false;
        }
        SoundIs();
        Count(stats.(orderDelete := stats.orderDelete + 1));
      }
      SoundFacts();
      assert Current() == Step(Capacities(), st, Delete(locate, id));
      StepKeepsWellFormed(Capacities(), st, Delete(locate, id));
    }

    lemma SoundIs()
      requires SoundBut(0)
      ensures Sound()
    {
    }

    /** order_pool_.acquire(): null exactly when every slot holds a live order. */
    method AcquireOrder() returns (p: Ptr)
      requires SoundBut(0)
      modifies orderPool
      ensures p == NULL <==> |index.ids| >= orderPool.capacity
      ensures p == NULL ==> SoundBut(0)
      ensures p != NULL ==>
                SoundBut(1) && 0 <= p < orderPool.capacity && p !in orderPool.free && !Live(orderPool.storage[..], p)
      ensures Mem() == old(Mem())
    {
      hide FreeList, Indexes, BooksApart, BooksValid, InstrumentsOk, OrderBook.Valid, OrderBook.View,
           OrderBook.MapCapacity, Coherent;
      ghost var views := Views();
      BooksOffBase();
      p := orderPool.Acquire();
      forall loc | loc in books
        ensures books[loc].Valid() && books[loc].MapCapacity() == mapCapacity && books[loc].View() == views[loc]
      {
        BookUntouched(books[loc]);
      }
      ViewsKept(views);
      InstrumentsKept();
    }

    /** What A, F and U do alike once they hold a slot: construct the order, put it in its book and index it. With
        no level and no slot for one, the order slot goes back and only the rejection is counted. */
    method PlaceOrder(b: OrderBook, loc: u16, p: Ptr, x: Order) returns (rc: int)
      requires SoundBut(1) && 0 <= p < orderPool.capacity && p !in orderPool.free && !Live(orderPool.storage[..], p)
      requires loc in books && books[loc] == b && x.locate == loc && x.id !in index.ids
      requires RoomFor(Capacities(), MarketOf(Mem()), PlaceOf(x))
      modifies b.Repr(), levelPool, levelPool.storage, orderPool, orderPool.storage, index, index.slots, this`stats,
               this`places
      ensures Sound() && books == old(books) && made == old(made)
      ensures rc == 0 <==> PlaceOf(x) !in old(MarketOf(Mem())).queues
                           && |old(MarketOf(Mem())).queues| >= Capacities().levels
      ensures rc == 0 ==> MarketOf(Mem()) == old(MarketOf(Mem())) && stats == CountNoLevel(old(stats))
      ensures rc != 0 ==> MarketOf(Mem()) == Arrive(old(MarketOf(Mem())), x.id, RestOf(x))
                          && stats == Recount(old(stats), MarketOf(Mem()))
    {
      hide Struct, Views, Coherent, MarketOf, BookOk, InBook, AddEffect, Arriving, Arrive, OrderBook.View, HasRoom,
           RoomFor, BooksOk, IndexedWait, WaitingIndexed, PlacesTabled, Recount, OrderBook.Repr, Unused;
      ghost var s, free := Mem(), levelPool.free;
      CoherentParts(s);
      CapacityIs();
      ViewIs(loc);
      NotIndexedIsUnused(s, p);
      RoomMeansRoom(s, x, Capacities(), free);
      Construct(p, x);
      ghost var s1 := Mem();
      UnusedSlotWrite(s, s1.om, p);
      ViewIs(loc);
      OffBook(loc);
      ReadyToAdd(s1, loc, p);
      FreeLevels();
      ghost var l;
      rc, l := BookAdd(b, loc, p);
      ViewIs(loc);
      AddedStep(s1, free, Mem(), levelPool.free, p, x, rc, l);
      if rc == 0 {
        Reject(p, x, s1);
      } else {
        Enter(x.id, p, rc, l, s1, free, x);
      }
    }

    /** The rejection of an order whose level cannot be opened. */
    method Reject(p: Ptr, ghost x: Order, ghost s: Memory)
      requires SoundBut(1) && 0 <= p < orderPool.capacity && p !in orderPool.free
      requires Mem() == s && Live(s.om, p) && s.om[p].value == x && x.id !in s.ids
      modifies orderPool, orderPool.storage, this`stats
      ensures Sound() && MarketOf(Mem()) == MarketOf(s) && stats == CountNoLevel(old(stats))
    {
      hide Struct, Views, Coherent, MarketOf, BooksOk, IndexedWait, WaitingIndexed, PlacesTabled, Unused;
      NotIndexedIsUnused(s, p);
      UnusedIsUnindexed(s, p);
      Discard(p);
      UnusedSlotWrite(s, Mem().om, p);
      Count(CountNoLevel(stats));
    }

    lemma FreeLevels()
      requires Struct()
      ensures forall p :: p in levelPool.free ==> !Live(levelPool.storage[..], p)
    {
      FreeSlotsHoldLinks(levelPool.storage[..], levelPool.head, levelPool.free);
    }

    /** instruments_[loc], or a new instrument. */
    method EnsureInstrument(loc: u16) returns (inst: Instrument)
      requires Struct()
      modifies this`made, instruments, instruments.slots
      ensures Struct() && Mem() == old(Mem()) && instruments.slots[loc] == inst && inst in made
      ensures fresh(made - old(made)) && made == old(made) + {inst} && books == old(books)
              && BookObjects() == old(BookObjects())
      ensures instruments.slots[..] == old(instruments.slots[..])[loc := inst]
      ensures old(instruments.slots[loc]) != null ==> inst == old(instruments.slots[loc])
    {
      hide FreeList, Indexes, BooksApart, BooksValid, InstrumentsOk, OrderBook.Valid, OrderBook.View,
           OrderBook.MapCapacity, OrderBook.Repr, Separate, BookObjects;
      ghost var views := Views();
      BooksOffBase();
      SlotsFit();
      inst := instruments.GetOrCreate(loc);
      SeparateFromInstrument(books, Base(), made, inst);
      made := made + {inst};
      forall x | x in books
        ensures books[x].Valid() && books[x].MapCapacity() == mapCapacity && books[x].View() == views[x]
      {
        BookUntouched(books[x]);
      }
      ViewsKept(views);
      BooksApartIs();
      InstrumentAdded(loc, inst);
      SameObjects();
    }

    twostate lemma SameObjects()
      requires books == old(books)
      ensures BookObjects() == old(BookObjects())
    {
    }

    lemma BooksApartIs()
      requires Separate(books, Base(), made)
      ensures BooksApart()
    {
    }

    twostate lemma InstrumentAdded(loc: u16, new inst: Instrument)
      requires old(InstrumentsOk()) && books == old(books) && made == old(made) + {inst}
      requires instruments.slots[..] == old(instruments.slots[..])[loc := inst]
      requires forall i :: i in old(made) ==> unchanged(i)
      requires if old(instruments.slots[loc]) != null then inst == old(instruments.slots[loc])
               else inst.locate == loc && inst.book == null
      ensures InstrumentsOk()
    {
      forall i | 0 <= i < MAX_INSTRUMENTS && i != loc
        ensures instruments.slots[i] == old(instruments.slots[i])
      {
        assert instruments.slots[..][i] == old(instruments.slots[..])[i];
      }
      assert instruments.slots[..][loc] == inst;
    }

    lemma SlotsFit()
      requires Struct()
      ensures instruments.slots.Length == MAX_INSTRUMENTS
      ensures forall i :: 0 <= i < MAX_INSTRUMENTS && instruments.slots[i] != null ==> instruments.slots[i] in made
      ensures Separate(books, Base(), made) && InstrumentsOk()
    {
    }

    /** ensure_book: the book of an instrument is made on its first order. The market gains nothing from an
        empty book. */
    method EnsureBook(loc: u16, inst: Instrument) returns (b: OrderBook)
      requires Struct() && instruments.slots[loc] == inst && inst in made
      modifies this`books, inst
      ensures Struct() && loc in books && books[loc] == b && made == old(made)
      ensures Mem() == if loc in old(books) then old(Mem())
              else old(Mem()).(books := old(Mem()).books[loc := EMPTY_BOOK])
      ensures fresh(BookObjects() - old(BookObjects()))
    {
      hide Struct, Mem, BookObjects;
      SlotsFit();
      SlotAt(loc);
      if inst.book == null {
        OpenBook(loc, inst);
      }
      b := inst.book;
    }

    method OpenBook(loc: u16, inst: Instrument)
      requires Struct() && instruments.slots[loc] == inst && inst in made && loc !in books
      modifies this`books, inst
      ensures Struct() && loc in books && books[loc] == inst.book && made == old(made)
      ensures Mem() == old(Mem()).(books := old(Mem()).books[loc := EMPTY_BOOK])
      ensures fresh(BookObjects() - old(BookObjects()))
    {
      hide FreeList, Indexes, BooksApart, BooksValid, InstrumentsOk, OrderBook.Valid, OrderBook.View,
           OrderBook.MapCapacity, OrderBook.Repr, Separate, BookObjects, Mem;
      ghost var views := Views();
      BooksOffBase();
      SlotsFit();
      SlotAt(loc);
      var b := AttachBook(loc, inst);
      ViewsAfter(loc, views);
      BooksApartIs();
      BookAdded(loc, b);
      ObjectsAdded(loc, b);
      ViewAdded(loc);
    }

    method AttachBook(loc: u16, inst: Instrument) returns (b: OrderBook)
      requires loc !in books && inst.locate == loc && mapCapacity > 0
      requires Separate(books, Base(), made) && forall x :: x in books ==> books[x].Valid()
      modifies this`books, inst
      ensures inst.book == b && fresh(b) && fresh(b.Repr()) && b.Valid() && b.View() == EMPTY_BOOK
              && b.MapCapacity() == mapCapacity
      ensures books == old(books)[loc := b] && Separate(books, Base(), made)
      ensures forall x :: x in old(books) ==> books[x].Valid() && books[x].View() == old(books[x].View())
    {
      hide OrderBook.Valid, OrderBook.View, OrderBook.Repr, Separate;
      b := new OrderBook(loc, mapCapacity, hash);
      FreshFromBase(b);
      forall x | x in books
        ensures b.Repr() !! books[x].Repr()
      {
        FreshFromBook(b, books[x]);
      }
      SeparateFromBook(books, Base(), made, loc, b);
      inst.book := b;
      books := books[loc := b];
      forall x | x in old(books)
        ensures books[x].Valid() && books[x].View() == old(books[x].View())
      {
        BookUntouched(old(books)[x]);
      }
    }

    twostate lemma ObjectsAdded(loc: u16, new b: OrderBook)
      requires books == old(books)[loc := b] && fresh(b.Repr())
      ensures fresh(BookObjects() - old(BookObjects()))
    {
      hide OrderBook.Repr;
    }

    twostate lemma ViewAdded(loc: u16)
      requires places == old(places) && unchanged(index) && unchanged(orderPool.storage) && unchanged(levelPool.storage)
      requires Views() == old(Views())[loc := EMPTY_BOOK]
      ensures Mem() == old(Mem()).(books := old(Mem()).books[loc := EMPTY_BOOK])
    {
      hide Views;
    }

    lemma SlotAt(loc: u16)
      requires InstrumentsOk() && instruments.slots[loc] != null
      ensures var inst := instruments.slots[loc];
              inst.locate == loc && (inst.book != null <==> loc in books) && (loc in books ==> books[loc] == inst.book)
    {
    }

    twostate lemma FreshFromBase(new b: OrderBook)
      requires fresh(b) && fresh(b.Repr())
      ensures b.Repr() !! Base() && b.Repr() !! old(made)
    {
    }

    twostate lemma FreshFromBook(new b: OrderBook, x: OrderBook)
      requires fresh(b) && fresh(b.Repr())
      ensures b.Repr() !! x.Repr()
    {
    }

    twostate lemma BookAdded(loc: u16, new b: OrderBook)
      requires old(InstrumentsOk()) && made == old(made) && unchanged(instruments.slots)
      requires instruments.slots[loc] != null && instruments.slots[loc].book == b
      requires forall i :: i in old(made) && i != instruments.slots[loc] ==> unchanged(i)
      requires if loc in old(books) then books == old(books) && b == old(books)[loc] else books == old(books)[loc := b]
      ensures InstrumentsOk()
    {
    }

    /** The instrument and the book that an added order needs, made when missing. */
    method BookFor(loc: u16) returns (b: OrderBook)
      requires Sound()
      modifies Repr()
      ensures Sound() && loc in books && books[loc] == b && fresh(Repr() - old(Repr()))
      ensures Mem() == old(Mem()) || Mem() == old(Mem()).(books := old(Mem()).books[loc := EMPTY_BOOK])
      ensures MarketOf(Mem()) == old(MarketOf(Mem())) && stats == old(stats) && index.ids == old(index.ids)
    {
      hide Struct, Mem, Coherent, MarketOf, IndexedWait, BookObjects, OrderBook.Repr, Sound, SoundBut, Base, Repr;
      SoundFacts();
      ReprParts();
      ghost var s := Mem();
      var inst := EnsureInstrument(loc);
      assert inst in old(made) || fresh(inst);
      ghost var objects := BookObjects();
      label Before:
      b := EnsureBook(loc, inst);
      if loc !in old(books) {
        BooksInMemory(loc);
        NewBookIsEmpty(s, loc);
      }
      SoundStill();
      assert forall o :: o in BookObjects() && o !in objects ==> fresh@Before(o);
      assert forall o :: o in BookObjects() && o !in objects ==> fresh(o);
      ReprGrows(objects);
    }

    lemma ReprParts()
      ensures Base() <= Repr() && made <= Repr() && {this, instruments, instruments.slots} <= Repr()
    {
    }

    twostate lemma ReprGrows(objects: set<object>)
      requires fresh(made - old(made)) && objects == old(BookObjects())
      requires forall o :: o in BookObjects() && o !in objects ==> fresh(o)
      ensures fresh(Repr() - old(Repr()))
    {
      hide BookObjects;
    }

    twostate lemma SoundStill()
      requires old(Sound()) && Struct() && Coherent(Mem()) && stats == old(stats)
               && orderPool.free == old(orderPool.free)
      requires levelPool.free == old(levelPool.free)
      requires Mem().ids == old(Mem()).ids && Mem().places == old(Mem()).places
      ensures Sound() && index.ids == old(index.ids)
    {
      hide Struct, Coherent;
    }

    twostate lemma BooksInMemory(loc: u16)
      ensures loc in old(Mem()).books <==> loc in old(books)
    {
    }

    /** Add Order ('A', 'F'). */
    method OnAddOrder(locate: u16, id: OrderId, indicator: byte, qty: u32, px: u32, ts: u64, mpid: Mpid,
                      attributed: bool)
      requires Valid()
      requires Admissible(Capacities(), Now().market, Add(locate, id, indicator, qty, px, ts, mpid, attributed))
      modifies Repr()
      ensures Valid() && fresh(Repr() - old(Repr()))
      ensures Now() == Step(Capacities(), old(Now()), Add(locate, id, indicator, qty, px, ts, mpid, attributed))
    {
      hide Sound, SoundBut, Struct, Mem, WellFormed, MarketOf, IndexedWait, Arrive, OrderBook.Repr, InstrumentsOk,
           DirectOrderIndex.Ok, Coherent, StepTake, StepDelete, StepReplace, StepCross, BookObjects, RoomFor;
      SoundFacts();
      ghost var st, ev := Current(), Add(locate, id, indicator, qty, px, ts, mpid, attributed);
      var o := index.Find(id, orderPool);
      if o != NULL {
        Count(CountDuplicate(stats));
      } else {
        NullIsNotIndexed(id);
        AddNew(Order(id, locate, px, qty, ToSide(indicator), ts, if attributed then mpid else NO_MPID), attributed);
      }
      SoundFacts();
      assert Current() == Step(Capacities(), st, ev);
      StepKeepsWellFormed(Capacities(), st, ev);
    }

    /** An order with a new id. */
    method AddNew(x: Order, attributed: bool)
      requires Sound() && x.id !in index.ids
      requires |index.ids| < orderPool.capacity ==> RoomFor(Capacities(), MarketOf(Mem()), PlaceOf(x))
      modifies Repr()
      ensures Sound() && fresh(Repr() - old(Repr()))
      ensures var m, m' := old(MarketOf(Mem())), MarketOf(Mem());
              if |old(index.ids)| >= orderPool.capacity then
                m' == m && stats == old(stats).(addRejectedPoolExhausted := old(stats).addRejectedPoolExhausted + 1,
                                                poolExhausted := old(stats).poolExhausted + 1)
              else if PlaceOf(x) !in m.queues && |m.queues| >= Capacities().levels then
                m' == m && stats == CountNoLevel(old(stats))
              else
                m' == Arrive(m, x.id, RestOf(x))
                && stats == var counted := Recount(old(stats), m');
                            if attributed then counted.(addOrdersWithMpid := counted.addOrdersWithMpid + 1)
                            else counted.(addOrders := counted.addOrders + 1)
    {
      hide Sound, SoundBut, Struct, Mem, MarketOf, IndexedWait, Arrive, OrderBook.Repr, BookObjects, RoomFor,
           Coherent, Recount;
      SoundFacts();
      var b := BookFor(x.locate);
      SoundFacts();
      var p := AcquireOrder();
      if p == NULL {
        SoundIs();
        Count(stats.(addRejectedPoolExhausted := stats.addRejectedPoolExhausted + 1,
            poolExhausted := stats.poolExhausted + 1));
        return;
      }
      var rc := PlaceOrder(b, x.locate, p, x);
      if rc != 0 {
        if attributed {
          Count(stats.(addOrdersWithMpid := stats.addOrdersWithMpid + 1));
        } else {
          Count(stats.(addOrders := stats.addOrders + 1));
        }
      }
    }

    /** Order Replace ('U'). */
    method OnOrderReplace(locate: u16, id: OrderId, newId: OrderId, qty: u32, px: u32, ts: u64)
      requires Valid()
      requires Admissible(Capacities(), Now().market, Replace(locate, id, newId, qty, px, ts))
      modifies Repr()
      ensures Valid() && Repr() == old(Repr())
      ensures Now() == Step(Capacities(), old(Now()), Replace(locate, id, newId, qty, px, ts))
    {
      hide Sound, SoundBut, Struct, Mem, MarketOf, IndexedWait, Leave, Consistent, OrderBook.Repr, InstrumentsOk,
           DirectOrderIndex.Ok, Coherent, StepAdd, StepTake, StepDelete, StepCross, BookObjects, RoomFor, ReplaceLive;
      SoundFacts();
      ghost var st, ev := Current(), Replace(locate, id, newId, qty, px, ts);
      StepKeepsWellFormed(Capacities(), st, ev);
      var o, home := Lookup(id, locate);
      if o != NULL {
        ReplaceFound(o, home, id, newId, qty, px, ts, ev);
      }
      SoundFacts();
      assert Current() == Step(Capacities(), st, ev);
    }

    /** The replace of an order that was found. */
    method ReplaceFound(o: Ptr, home: u16, id: OrderId, newId: OrderId, qty: u32, px: u32, ts: u64, ghost ev: Event)
      requires Sound() && id in index.ids && index.ids[id] == o && Live(orderPool.storage[..], o)
      requires home in books && orderPool.storage[o].value.locate == home
      requires ev == Replace(ev.loc, id, newId, qty, px, ts) && id in MarketOf(Mem()).orders
      requires Consistent(MarketOf(Mem())) && Admissible(Capacities(), MarketOf(Mem()), ev)
      modifies Repr()
      ensures Sound() && Repr() == old(Repr())
      ensures State(MarketOf(Mem()), stats) == ReplaceLive(Capacities(), old(State(MarketOf(Mem()), stats)), ev)
    {
      hide Sound, SoundBut, Struct, Mem, MarketOf, IndexedWait, Leave, Arrive, Consistent, OrderBook.Repr, Coherent,
           BookObjects, RoomFor, Recount, InstrumentsOk, DirectOrderIndex.Ok;
      SoundFacts();
      var other := index.Find(newId, orderPool);
      if other != NULL {
        Count(CountDuplicate(stats));
        SoundFacts();
        return;
      }
      NullIsNotIndexed(newId);
      var b := BookOf(home);
      if b == null {
        // An indexed order always has its book.
        assert false;
      }
      ReplaceIn(b, home, o, id, newId, qty, px, ts, ev);
    }

    /** A live order gives way to one with a new id. The new slot is taken before the old one is released. */
    method ReplaceIn(b: OrderBook, loc: u16, o: Ptr, id: OrderId, newId: OrderId, qty: u32, px: u32, ts: u64,
                     ghost ev: Event)
      requires Sound() && id in index.ids && index.ids[id] == o && Live(orderPool.storage[..], o)
      requires loc in books && books[loc] == b && orderPool.storage[o].value.locate == loc && newId !in index.ids
      requires ev == Replace(ev.loc, id, newId, qty, px, ts) && id in MarketOf(Mem()).orders
      requires Consistent(MarketOf(Mem())) && Admissible(Capacities(), MarketOf(Mem()), ev)
      modifies b.Repr(), levelPool, levelPool.storage, orderPool, orderPool.storage, index, index.slots, this`stats,
               this`places
      ensures Sound() && books == old(books) && made == old(made)
      ensures State(MarketOf(Mem()), stats) == ReplaceLive(Capacities(), old(State(MarketOf(Mem()), stats)), ev)
    {
      hide Sound, SoundBut, Struct, Mem, MarketOf, IndexedWait, Arrive, Leave, Consistent, OrderBook.Repr, BookObjects,
           RoomFor, Coherent, Recount, Take, RestOf, PlaceOf, CountNoLevel, InstrumentsOk, DirectOrderIndex.Ok,
           MemoryPool.Valid;
      SoundFacts();
      FoundHere(id);
      ghost var m := MarketOf(Mem());
      var side, mpid := orderPool.storage[o].value.side, orderPool.storage[o].value.mpid;
      var x := Order(newId, loc, px, qty, side, ts, mpid);
      NewRest(orderPool.storage[o].value, x, ev);
      var p := AcquireOrder();
      if p == NULL {
        SoundIs();
        Count(stats.(replaceRejectedPoolExhausted := stats.replaceRejectedPoolExhausted + 1,
                     poolExhausted := stats.poolExhausted + 1));
        SoundFacts();
        return;
      }
      MoveOrder(b, loc, o, id, p, x);
      SoundFacts();
    }

    /** The part of a replace that has its slot, with the accepted event counted. */
    method MoveOrder(b: OrderBook, loc: u16, o: Ptr, id: OrderId, p: Ptr, x: Order)
      requires SoundBut(1) && id in index.ids && index.ids[id] == o && Live(orderPool.storage[..], o)
      requires loc in books && books[loc] == b && orderPool.storage[o].value.locate == loc == x.locate
               && x.id !in index.ids
      requires 0 <= p < orderPool.capacity && p !in orderPool.free && !Live(orderPool.storage[..], p)
      requires id in MarketOf(Mem()).orders && RoomFor(Capacities(), Leave(MarketOf(Mem()), id), PlaceOf(x))
      requires Consistent(MarketOf(Mem()))
      requires |MarketOf(Mem()).orders| <= stats.peakLiveOrders && |MarketOf(Mem()).queues| <= stats.peakLiveLevels
      modifies b.Repr(), levelPool, levelPool.storage, orderPool, orderPool.storage, index, index.slots, this`stats,
               this`places
      ensures Sound() && books == old(books) && made == old(made)
      ensures var m1, m' := Leave(old(MarketOf(Mem())), id), MarketOf(Mem());
              if PlaceOf(x) !in m1.queues && |m1.queues| >= Capacities().levels then
                m' == m1 && stats == CountNoLevel(Recount(old(stats), m1))
              else
                m' == Arrive(m1, x.id, RestOf(x))
                && stats == var counted := Recount(old(stats), m'); counted.(orderReplace := counted.orderReplace + 1)
    {
      hide Sound, SoundBut, Struct, Mem, MarketOf, IndexedWait, Arrive, Leave, Consistent, OrderBook.Repr,
           BookObjects, RoomFor, Coherent, Recount, RestOf, PlaceOf;
      TransitFacts(1);
      ghost var m, was := MarketOf(Mem()), stats;
      var rc := Exchange(b, loc, o, id, p, x);
      if rc != 0 {
        SoundFacts();
        RecountTwice(was, m, id, MarketOf(Mem()));
        Count(stats.(orderReplace := stats.orderReplace + 1));
      }
    }

    lemma TransitFacts(transit: nat)
      requires SoundBut(transit)
      ensures IndexedWait(Mem())
    {
      hide Struct, BooksOk, WaitingIndexed, PlacesTabled;
      CoherentParts(Mem());
    }

    /** With the new slot in hand, the old order goes and the new one comes. */
    method Exchange(b: OrderBook, loc: u16, o: Ptr, id: OrderId, p: Ptr, x: Order) returns (rc: int)
      requires SoundBut(1) && id in index.ids && index.ids[id] == o && Live(orderPool.storage[..], o)
      requires loc in books && books[loc] == b && orderPool.storage[o].value.locate == loc == x.locate
               && x.id !in index.ids
      requires 0 <= p < orderPool.capacity && p !in orderPool.free && !Live(orderPool.storage[..], p)
      requires id in MarketOf(Mem()).orders && RoomFor(Capacities(), Leave(MarketOf(Mem()), id), PlaceOf(x))
      modifies b.Repr(), levelPool, levelPool.storage, orderPool, orderPool.storage, index, index.slots, this`stats,
               this`places
      ensures Sound() && books == old(books) && made == old(made)
      ensures var m1 := Leave(old(MarketOf(Mem())), id);
              && (rc == 0 <==> PlaceOf(x) !in m1.queues && |m1.queues| >= Capacities().levels)
              && (rc == 0 ==> MarketOf(Mem()) == m1 && stats == CountNoLevel(Recount(old(stats), m1)))
              && (rc != 0 ==> MarketOf(Mem()) == Arrive(m1, x.id, RestOf(x))
                              && stats == Recount(Recount(old(stats), m1), MarketOf(Mem())))
    {
      hide Sound, SoundBut, Struct, Mem, MarketOf, IndexedWait, Arrive, Leave, OrderBook.Repr, BookObjects, RoomFor,
           Coherent, Recount;
      var rm := RemoveFromBook(b, loc, o, id, 1);
      if rm == 0 {
        // Its level is never missing.
        assert false;
      }
      rc := PlaceOrder(b, loc, p, x);
    }

    lemma FoundHere(id: OrderId)
      requires Sound() && id in index.ids
      ensures var o := index.ids[id];
              && Live(orderPool.storage[..], o)
              && id in MarketOf(Mem()).orders && MarketOf(Mem()).orders[id] == RestOf(orderPool.storage[o].value)
      ensures |MarketOf(Mem()).orders| <= stats.peakLiveOrders && |MarketOf(Mem()).queues| <= stats.peakLiveLevels
    {
      hide Struct, Coherent, MarketOf, IndexedWait, BookOk, InBook, Views;
      FoundOrder(Mem(), id);
      MarketSizes(Mem());
    }

    /** Every order of the snapshot leaves the index, by the id its slot still holds, and then the pool. */
    method RetireAll(snapshot: seq<Ptr>, ghost s: Memory)
      requires Struct() && Mem() == s && IndexedWait(s) && Distinct(snapshot) && AllIndexed(s, snapshot)
      modifies index, index.slots, orderPool, orderPool.storage
      ensures Struct() && Mem() == s.(om := orderPool.storage[..], ids := Remaining(s.ids, snapshot))
      ensures |Mem().om| == |s.om| && forall p :: 0 <= p < |s.om| && p !in snapshot ==> Mem().om[p] == s.om[p]
      ensures |orderPool.free| == |old(orderPool.free)| + |snapshot| && |index.ids| + |snapshot| == |s.ids|
    {
      hide Struct, Mem, IndexedWait, Remaining;
      NoneGone(s);
      var i := 0;
      while i < |snapshot|
        invariant 0 <= i <= |snapshot| && Struct()
        invariant Mem() == s.(om := orderPool.storage[..], ids := Remaining(s.ids, snapshot[..i]))
        invariant |Mem().om| == |s.om| && forall p :: 0 <= p < |s.om| && p !in snapshot[..i] ==> Mem().om[p] == s.om[p]
        invariant |orderPool.free| == |old(orderPool.free)| + i && |index.ids| + i == |s.ids|
      {
        RetireNext(snapshot[i], s, snapshot[..i]);
        assert snapshot[..i + 1] == snapshot[..i] + [snapshot[i]];
        i := i + 1;
      }
      assert snapshot[..|snapshot|] == snapshot;
    }

    lemma NoneGone(s: Memory)
      requires Mem() == s
      ensures Remaining(s.ids, []) == s.ids == index.ids
              && s == s.(om := orderPool.storage[..], ids := Remaining(s.ids, []))
      ensures s.om == orderPool.storage[..]
    {
    }

    method RetireNext(o: Ptr, ghost s: Memory, ghost gone: seq<Ptr>)
      requires Struct() && IndexedWait(s) && o !in gone && Live(s.om, o)
      requires IdAt(s.om, o) in s.ids && s.ids[IdAt(s.om, o)] == o
      requires Mem() == s.(om := orderPool.storage[..], ids := Remaining(s.ids, gone))
      requires |Mem().om| == |s.om| && forall p :: 0 <= p < |s.om| && p !in gone ==> Mem().om[p] == s.om[p]
      modifies index, index.slots, orderPool, orderPool.storage
      ensures Struct() && Mem() == s.(om := orderPool.storage[..], ids := Remaining(s.ids, gone + [o]))
      ensures |Mem().om| == |s.om| && forall p :: 0 <= p < |s.om| && p !in gone + [o] ==> Mem().om[p] == s.om[p]
      ensures |orderPool.free| == |old(orderPool.free)| + 1 && |index.ids| == |old(index.ids)| - 1
    {
      hide Struct, IndexedWait, Remaining, Views;
      RemainingStep(s, gone, o);
      LiveIsNotFree(o);
      ghost var ids := index.ids;
      RemovalSize(ids, orderPool.storage[o].value.id);
      CapacityIs();
      Retire(orderPool.storage[o].value.id, o);
    }

    /** The closing cross of one instrument: every order of its book leaves the index and the pool, then every
        level its list, its table and the pool. */
    method Sweep(b: OrderBook, loc: u16)
      requires Sound() && loc in books && books[loc] == b
      modifies b.Repr(), levelPool, levelPool.storage, orderPool, orderPool.storage, index, index.slots, this`stats,
               this`places
      ensures Sound() && books == old(books) && made == old(made)
      ensures MarketOf(Mem()) == ClearBook(old(MarketOf(Mem())), loc)
      ensures stats == Recount(old(stats), MarketOf(Mem()))
    {
      hide Struct, Views, Coherent, MarketOf, ClearBook, WipeStep, BooksOk, IndexedWait, WaitingIndexed, PlacesTabled,
           OrderBook.Repr, PlacesAt, OtherPlaces;
      ghost var s := Mem();
      ViewIs(loc);
      CountsAreLevels(s, loc);
      SweepBook(b, loc, s);
      WipeRefines(s, orderPool.storage[..], levelPool.storage[..], index.ids, loc);
      CoherentParts(Mem());
      MarketSizes(Mem());
    }

    method SweepBook(b: OrderBook, loc: u16, ghost s: Memory)
      requires Sound() && loc in books && books[loc] == b && Mem() == s && loc in s.books
      requires |PlacesAt(s, loc)| == s.books[loc].bid.count + s.books[loc].ask.count <= |s.places|
      requires |PlacesAt(s, loc)| == |s.books[loc].bid.list| + |s.books[loc].ask.list|
      requires BookShape(s.om, s.lm, loc, s.books[loc])
      modifies b.Repr(), levelPool, levelPool.storage, orderPool, orderPool.storage, index, index.slots, this`stats,
               this`places
      ensures Struct() && books == old(books) && made == old(made) && places == OtherPlaces(s.places, loc)
      ensures Mem() == Wiped(s, orderPool.storage[..], levelPool.storage[..], index.ids, loc)
      ensures WipeStep(s, orderPool.storage[..], levelPool.storage[..], index.ids, loc)
      ensures |index.ids| + |orderPool.free| == |s.ids| + |old(orderPool.free)| && |index.ids| <= |s.ids|
      ensures |levelPool.free| == |old(levelPool.free)| + |PlacesAt(s, loc)|
      ensures stats == old(stats).(liveOrders := |index.ids|, liveLevels := old(stats).liveLevels - |PlacesAt(s, loc)|)
    {
      hide Struct, Views, Coherent, BookOk, InBook, OrderBook.View, BookShape, LevelsKept, BooksOk, IndexedWait,
           WaitingIndexed, PlacesTabled, OrderBook.Repr, Remaining, IdsAt, PlacesAt, AllIndexed, OtherPlaces;
      ViewIs(loc);
      OffBook(loc);
      var bookLevels := b.LiveLevels();
      var snapshot := Snapshot(b, loc, s);
      RetireAll(snapshot, s);
      DropCounts(|snapshot|, bookLevels);
      ViewIs(loc);
      BookClear(b, loc, s.om);
      ForgetPlaces(loc);
    }

    /** The orders of one book, as for_each_order lists them. */
    method Snapshot(b: OrderBook, loc: u16, ghost s: Memory) returns (snapshot: seq<Ptr>)
      requires Sound() && loc in books && books[loc] == b && Mem() == s
      ensures Struct() && Mem() == s && IndexedWait(s) && loc in s.books && Distinct(snapshot)
              && AllIndexed(s, snapshot)
      ensures forall p :: p in snapshot <==> InBook(s.books[loc], p)
      ensures Remaining(s.ids, snapshot) == s.ids - IdsAt(s, loc)
    {
      hide Struct, Views, Coherent, BookOk, InBook, Walk, Remaining, IdsAt, AllIndexed, OrderBook.Repr,
           OrderBook.View, BooksOk, IndexedWait, WaitingIndexed, PlacesTabled;
      BookIsOk(loc);
      snapshot := BookVisit(b, loc);
      ViewIs(loc);
      CoherentParts(s);
      WalkFindsIds(s, loc, snapshot);
    }

    lemma BookIsOk(loc: u16)
      requires SoundBut(0) && loc in books
      ensures books[loc].Ok(levelPool, orderPool)
    {
      hide BookOk, IndexedWait, WaitingIndexed, PlacesTabled;
      BookAt(Mem(), loc);
    }

    /** The live counters without the orders and levels of one book, cut off at zero. */
    method DropCounts(orders: nat, levels: nat)
      requires Struct() && stats.liveOrders >= 0 && stats.liveLevels >= 0
      modifies this`stats
      ensures Struct() && Mem() == old(Mem())
      ensures stats == old(stats).(liveOrders := Max(old(stats).liveOrders - orders, 0),
                                   liveLevels := Max(old(stats).liveLevels - levels, 0))
    {
      hide BooksApart, BooksValid, InstrumentsOk, OrderBook.Valid, OrderBook.View, OrderBook.MapCapacity,
           MemoryPool.Valid, DirectOrderIndex.Ok;
      ThisIsApart();
      if stats.liveOrders >= orders {
        stats := stats.(liveOrders := stats.liveOrders - orders);
      } else {
        stats := stats.(liveOrders := 0);
      }
      if stats.liveLevels >= levels {
        stats := stats.(liveLevels := stats.liveLevels - levels);
      } else {
        stats := stats.(liveLevels := 0);
      }
    }

    ghost method ForgetPlaces(loc: u16)
      requires Struct()
      modifies this`places
      ensures Struct() && Mem() == old(Mem()).(places := places)
      ensures places == OtherPlaces(old(places), loc)
    {
      hide BooksApart, BooksValid, InstrumentsOk, OrderBook.Valid, OrderBook.View, OrderBook.MapCapacity,
           MemoryPool.Valid, DirectOrderIndex.Ok;
      ThisIsApart();
      places := OtherPlaces(places, loc);
    }

    /** Cross Trade ('Q'): only the closing cross clears the book. */
    method OnCrossTrade(locate: u16, kind: byte)
      requires Valid()
      modifies Repr()
      ensures Valid() && Repr() == old(Repr())
      ensures Now() == Step(Capacities(), old(Now()), Cross(locate, kind))
    {
      hide Sound, Struct, Mem, WellFormed, MarketOf, IndexedWait, ClearBook, OrderBook.Repr, InstrumentsOk,
           DirectOrderIndex.Ok, Coherent, StepAdd, StepTake, StepDelete, StepReplace, BookObjects;
      SoundFacts();
      ghost var st := Current();
      Count(stats.(crossTrades := stats.crossTrades + 1));
      if kind == 'C' as int {
        SoundFacts();
        var b := BookOf(locate);
        if b == null {
          NothingToClear(locate);
        } else {
          Sweep(b, locate);
        }
      }
      SoundFacts();
      assert Current() == Step(Capacities(), st, Cross(locate, kind));
      StepKeepsWellFormed(Capacities(), st, Cross(locate, kind));
    }

    lemma NothingToClear(loc: u16)
      requires Sound() && loc !in books
      ensures ClearBook(MarketOf(Mem()), loc) == MarketOf(Mem()) && Recount(stats, MarketOf(Mem())) == stats
    {
      hide Struct, Coherent, MarketOf, ClearBook;
      NoMarketThere(Mem(), loc);
      CoherentParts(Mem());
      MarketSizes(Mem());
    }

    /** Non-Cross Trade ('P') is informational. */
    method OnNonCrossTrade(locate: u16, qty: u32, px: u32, matchNumber: u64)
      requires Valid()
      modifies this`stats
      ensures Valid() && Now() == Step(Capacities(), old(Now()), Trade(locate, qty, px, matchNumber))
    {
      hide Struct, Sound, Mem, WellFormed, MarketOf, IndexedWait, StepAdd, StepTake, StepDelete, StepReplace,
           StepCross;
      SoundFacts();
      ghost var st := Current();
      Count(stats.(nonCrossTrades := stats.nonCrossTrades + 1));
      SoundFacts();
      StepKeepsWellFormed(Capacities(), st, Trade(locate, qty, px, matchNumber));
    }

    /** Broken Trade ('B') is informational. */
    method OnBrokenTrade(locate: u16, matchNumber: u64)
      requires Valid()
      modifies this`stats
      ensures Valid() && Now() == Step(Capacities(), old(Now()), Broken(locate, matchNumber))
    {
      hide Struct, Sound, Mem, WellFormed, MarketOf, IndexedWait, StepAdd, StepTake, StepDelete, StepReplace,
           StepCross;
      SoundFacts();
      ghost var st := Current();
      Count(stats.(brokenTrades := stats.brokenTrades + 1));
      SoundFacts();
      StepKeepsWellFormed(Capacities(), st, Broken(locate, matchNumber));
    }

    /** Stock Directory ('R') makes the instrument unless it is there already; the market does not see it. */
    method OnStockDirectory(locate: u16)
      requires Valid()
      modifies Repr()
      ensures Valid() && fresh(Repr() - old(Repr())) && Now() == old(Now())
      ensures Registered(old(instruments.slots[..]), instruments.slots[..], locate)
    {
      hide Struct, Mem, Coherent, MarketOf, IndexedWait, BookObjects, OrderBook.Repr, Sound, SoundBut, Base, Repr,
           WellFormed;
      SoundFacts();
      ReprParts();
      ghost var objects := BookObjects();
      var inst := EnsureInstrument(locate);
      SoundStill();
      ReprGrows(objects);
      SoundFacts();
    }

    /** Pool conservation: between events the slots taken from each pool, the live counters, the index, the market
        and all books together agree, so no slot is leaked, released twice or handed out while live. */
    lemma PoolsBalance()
      requires Valid()
      ensures orderPool.capacity - |orderPool.free| == stats.liveOrders == index.count == |Now().market.orders|
              == LiveOrders(Views())
      ensures levelPool.capacity - |levelPool.free| == stats.liveLevels == |Now().market.queues| == LiveLevels(Views())
      ensures forall p :: p in orderPool.free ==> !Live(orderPool.storage[..], p)
      ensures forall p :: p in levelPool.free ==> !Live(levelPool.storage[..], p)
    {
      hide Coherent, IndexedWait, MarketOf, WellFormed, BooksApart, InstrumentsOk, BooksValid;
      SoundFacts();
      MarketSizes(Mem());
      TotalsAreSizes(Mem());
      FreeSlotsHoldLinks(orderPool.storage[..], orderPool.head, orderPool.free);
      FreeSlotsHoldLinks(levelPool.storage[..], levelPool.head, levelPool.free);
    }

    /** Every slot of either pool is free or has exactly one name: the id of a live order, or the place of a live
        level. */
    lemma EverySlotHasItsUse()
      requires Valid()
      ensures forall p :: 0 <= p < orderPool.capacity ==>
                (p in orderPool.free <==> !exists id :: id in index.ids && index.ids[id] == p)
      ensures forall p :: 0 <= p < levelPool.capacity ==>
              (p in levelPool.free <==> !exists k :: k in places && places[k] == p)
      ensures Injective(index.ids) && Injective(places)
    {
      hide Coherent, IndexedWait, MarketOf, WellFormed, BooksApart, InstrumentsOk, BooksValid, Injective;
      SoundFacts();
      IdsAreApart(Mem());
      PlacesAreApart(Mem());
      CapacityIs();
      FreeSlotsHoldLinks(orderPool.storage[..], orderPool.head, orderPool.free);
      FreeSlotsHoldLinks(levelPool.storage[..], levelPool.head, levelPool.free);
      EverySlot(index.ids, orderPool.free, orderPool.capacity);
      EverySlot(places, levelPool.free, levelPool.capacity);
    }

    lemma NullIsNotIndexed(id: OrderId)
      requires Struct()
      ensures id in index.ids ==> index.ids[id] != NULL
    {
    }

    lemma HomeHasBook(loc: u16)
      requires Struct() && loc in Mem().books
      ensures loc in books
    {
    }

  }

  twostate predicate Untouched(b: OrderBook)
    reads b.Repr()
  {
    unchanged(b.Repr())
  }

  twostate lemma ObjectsUntouched(b: OrderBook)
    requires old(b.Valid()) && Untouched(b)
    ensures b.Valid() && b.View() == old(b.View())
  {
    hide OrderBook.Valid, OrderBook.View;
    BookUntouched(b);
  }

  twostate lemma BookUntouched(b: OrderBook)
    requires old(b.Valid())
    requires unchanged(b) && unchanged(b.bidMap) && unchanged(b.askMap)
    requires unchanged(b.bidMap.keys) && unchanged(b.bidMap.values) && unchanged(b.askMap.keys)
             && unchanged(b.askMap.values)
    ensures b.Valid() && b.View() == old(b.View())
  {
    hide FlatHashMap.Valid;
  }

  /** What an operation on a book leaves intact in the order pool's free list and in the index. */
  lemma SharedFrame(om: seq<Cell<Order>>, om': seq<Cell<Order>>, lm: seq<Cell<Level>>, loc: u16, v: BookView, o: Ptr,
                    head: Ptr, free: seq<Ptr>, slots: seq<Ptr>, overflow: map<OrderId, Ptr>, ids: map<OrderId, Ptr>)
    requires BookOk(om, lm, loc, v) && OrdersKept(om, om', v, o)
    requires Live(om, o) && Live(om', o) && om'[o].value.id == om[o].value.id
    requires FreeList(om, head, free) && Indexes(slots, overflow, om, ids)
    ensures FreeList(om', head, free) && Indexes(slots, overflow, om', ids)
  {
    hide BookOk, InBook, FreeList, Indexes;
    FreeSlotsHoldLinks(om, head, free);
    forall p | 0 <= p < |om| && p in free
      ensures om'[p] == om[p]
    {
      if InBook(v, p) {
        OrdersApart(om, lm, loc, v, p);
      }
    }
    FreeListFrame(om, om', head, free);
    IndexesFrame(slots, overflow, om, om', ids);
  }

  lemma ConstructedIndex(om: seq<Cell<Order>>, om': seq<Cell<Order>>, slots: seq<Ptr>, overflow: map<OrderId, Ptr>,
                         ids: map<OrderId, Ptr>, p: Ptr)
    requires Indexes(slots, overflow, om, ids) && !Live(om, p)
    requires |om'| == |om| && forall x :: 0 <= x < |om| && x != p ==> om'[x] == om[x]
    ensures Indexes(slots, overflow, om', ids)
  {
    hide Indexes;
    IndexesFrame(slots, overflow, om, om', ids);
  }

  lemma UnindexedWrite(om: seq<Cell<Order>>, om': seq<Cell<Order>>, slots: seq<Ptr>, overflow: map<OrderId, Ptr>,
                       ids: map<OrderId, Ptr>, p: Ptr)
    requires Indexes(slots, overflow, om, ids) && forall id :: id in ids ==> ids[id] != p
    requires |om'| == |om| && forall x :: 0 <= x < |om| && x != p ==> om'[x] == om[x]
    ensures Indexes(slots, overflow, om', ids)
  {
    hide Indexes;
    IndexesFrame(slots, overflow, om, om', ids);
  }

  /** Once its id is erased, nothing in the index points to the order. */
  lemma ErasedNowhere(om: seq<Cell<Order>>, slots: seq<Ptr>, overflow: map<OrderId, Ptr>, ids: map<OrderId, Ptr>,
                      id: OrderId, o: Ptr)
    requires Indexes(slots, overflow, om, ids - {id}) && Live(om, o) && om[o].value.id == id
    ensures forall x :: x in ids - {id} ==> (ids - {id})[x] != o
  {
  }

  /** What the replacing order is in the market. */
  lemma NewRest(was: Order, x: Order, ev: Event)
    requires ev.Replace? && x == Order(ev.newId, was.locate, ev.px, ev.qty, was.side, ev.ts, was.mpid)
    ensures RestOf(x) == ReplacedRest(RestOf(was), ev) && PlaceOf(x) == RestOf(x).Place()
  {
  }

  /** Counting the departure first does not show in the peaks. */
  lemma RecountTwice(stats: EngineStats, m: Market, id: OrderId, m': Market)
    requires Consistent(m) && id in m.orders && |m.orders| <= stats.peakLiveOrders && |m.queues| <= stats.peakLiveLevels
    ensures Recount(Recount(stats, Leave(m, id)), m') == Recount(stats, m')
  {
    hide Consistent, Leave;
    LeaveKeeps(m, id);
  }

  lemma TakesAll(s: Memory, x: Order, qty: u32)
    requires IndexedWait(s) && x.id in MarketOf(s).orders && MarketOf(s).orders[x.id] == RestOf(x) && qty >= x.shares
    ensures Take(MarketOf(s), x.id, qty) == Leave(MarketOf(s), x.id)
  {
  }

  lemma TakesSome(s: Memory, x: Order, qty: u32)
    requires IndexedWait(s) && x.id in MarketOf(s).orders && MarketOf(s).orders[x.id] == RestOf(x) && qty < x.shares
    ensures Take(MarketOf(s), x.id, qty) == Shrink(MarketOf(s), x.id, qty)
  {
  }
}
