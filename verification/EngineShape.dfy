/** The engine's memory as one value, the invariant that ties pools, books and index together, the market it
    stands for, and what each change of memory means for that market. */
module EngineShapes {
  import opened Types
  import opened IntrusiveLists
  import opened PriceLevels
  import opened BookShapes
  import opened OrderBooks
  import opened Markets

  /** Order memory, level memory, the indexed orders, the books that exist, and the level of every place. */
  datatype Memory = Memory(om: seq<Cell<Order>>, lm: seq<Cell<Level>>, ids: map<OrderId, Ptr>,
                           books: map<u16, BookView>, places: map<Key, Ptr>)

  function RestOf(o: Order): Rest {
    Rest(o.locate, o.side, o.price, o.shares, o.ts, o.mpid)
  }

  ghost function IdAt(om: seq<Cell<Order>>, p: Ptr): OrderId {
    if Live(om, p) then om[p].value.id else 0
  }

  ghost function IdsOf(om: seq<Cell<Order>>, q: seq<Ptr>): (ids: seq<OrderId>)
    ensures |ids| == |q|
  {
    seq(|q|, i requires 0 <= i < |q| => IdAt(om, q[i]))
  }

  /** Every indexed order is live, bears its id and waits in the book of its instrument. */
  ghost predicate IndexedWait(s: Memory) {
    forall id :: id in s.ids ==>
      && Live(s.om, s.ids[id]) && s.om[s.ids[id]].value.id == id
      && s.om[s.ids[id]].value.locate in s.books
      && InBook(s.books[s.om[s.ids[id]].value.locate], s.ids[id])
  }

  /** Every waiting order is indexed. */
  ghost predicate WaitingIndexed(s: Memory) {
    forall loc, p :: loc in s.books && InBook(s.books[loc], p) ==>
      IdAt(s.om, p) in s.ids && s.ids[IdAt(s.om, p)] == p
  }

  /** The places are the entries of all price tables together. */
  ghost predicate PlacesTabled(s: Memory) {
    && (forall k :: k in s.places ==> k.loc in s.books && k.price in s.books[k.loc].On(k.side).table
                                      && s.books[k.loc].On(k.side).table[k.price] == s.places[k])
    && (forall k: Key :: k.loc in s.books && k.price in s.books[k.loc].On(k.side).table ==> k in s.places)
  }

  ghost predicate BooksOk(s: Memory) {
    forall loc :: loc in s.books ==> BookOk(s.om, s.lm, loc, s.books[loc])
  }

  ghost predicate Coherent(s: Memory) {
    BooksOk(s) && IndexedWait(s) && WaitingIndexed(s) && PlacesTabled(s)
  }

  lemma IsIndexed(s: Memory, loc: u16, p: Ptr)
    requires WaitingIndexed(s) && loc in s.books && InBook(s.books[loc], p)
    ensures IdAt(s.om, p) in s.ids && s.ids[IdAt(s.om, p)] == p
  {
  }

  // ---- the market the memory stands for ----

  ghost function QueueAt(s: Memory, k: Key): seq<Ptr> {
    if k in s.places && k.loc in s.books then QueueOf(s.books[k.loc].fifo, s.places[k]) else []
  }

  ghost function Orders(s: Memory): map<OrderId, Rest>
    requires IndexedWait(s)
  {
    map id | id in s.ids :: RestOf(s.om[s.ids[id]].value)
  }

  ghost function Queues(s: Memory): map<Key, seq<OrderId>> {
    map k | k in s.places :: IdsOf(s.om, QueueAt(s, k))
  }

  ghost function MarketOf(s: Memory): Market
    requires IndexedWait(s)
  {
    Market(Orders(s), Queues(s))
  }

  lemma EmptyIsCoherent(om: seq<Cell<Order>>, lm: seq<Cell<Level>>)
    ensures var s := Memory(om, lm, map[], map[], map[]);
            Coherent(s) && IndexedWait(s) && MarketOf(s) == Market(map[], map[])
  {
    var s := Memory(om, lm, map[], map[], map[]);
    assert Orders(s) == map[] && Queues(s) == map[];
  }

  // ---- frames between books ----

  lemma BookFrame(om: seq<Cell<Order>>, om': seq<Cell<Order>>, lm: seq<Cell<Level>>, lm': seq<Cell<Level>>,
                  loc: u16, v: BookView)
    requires BookOk(om, lm, loc, v) && |om'| == |om| && |lm'| == |lm|
    requires forall p :: 0 <= p < |om| && InBook(v, p) ==> om'[p] == om[p]
    requires forall l :: 0 <= l < |lm| && l in v.fifo ==> lm'[l] == lm[l]
    ensures BookOk(om', lm', loc, v)
  {
    hide Linked, SideOk, Waiting, Walk;
    ListedLevels(om, lm, loc, v);
    SideMembers(om, lm, loc, v);
    assert forall l :: l in v.fifo ==> SameLevel(lm[l], lm'[l]);
    SideFrameOf(om, lm, lm', loc, v, Buy);
    SideFrameOf(om, lm, lm', loc, v, Sell);
    forall l | l in v.fifo
      ensures Waiting(om', lm', loc, l, v.fifo[l])
    {
      assert forall p :: p in v.fifo[l] ==> InBook(v, p);
      FrameOne(om, om', lm, lm', loc, l, v.fifo[l]);
    }
  }

  lemma FrameOne(om: seq<Cell<Order>>, om': seq<Cell<Order>>, lm: seq<Cell<Level>>, lm': seq<Cell<Level>>,
                 loc: u16, l: Ptr, q: seq<Ptr>)
    requires Waiting(om, lm, loc, l, q)
    requires |om'| == |om| && |lm'| == |lm| && 0 <= l < |lm| && lm'[l] == lm[l]
    requires forall p :: p in q && 0 <= p < |om| ==> om'[p] == om[p]
    ensures Waiting(om', lm', loc, l, q)
  {
    hide Linked, SumShares, Describes;
    WaitingFrame(om, om', lm, lm', loc, l, q);
  }

  /** An order waits in the book of its own instrument only. */
  lemma OrdersApart(om: seq<Cell<Order>>, lm: seq<Cell<Level>>, loc: u16, v: BookView, p: Ptr)
    requires BookOk(om, lm, loc, v) && InBook(v, p)
    ensures Live(om, p) && om[p].value.locate == loc
  {
    hide BookShape;
    var l, k := Whereabouts(om, lm, loc, v, p);
  }

  lemma FrontOrder(om: seq<Cell<Order>>, lm: seq<Cell<Level>>, loc: u16, v: BookView, l: Ptr)
    requires BookOk(om, lm, loc, v) && l in v.fifo
    ensures Live(lm, l) && Live(om, lm[l].value.head) && om[lm[l].value.head].value.locate == loc
  {
    hide BookShape, Linked;
    QueueWaits(om, lm, loc, v, l);
    assert lm[l].value.head == v.fifo[l][0];
  }

  /** Two books share no level: the oldest order of a level belongs to one instrument. */
  lemma LevelsApart(om: seq<Cell<Order>>, lm: seq<Cell<Level>>, loc: u16, v: BookView, loc': u16, v': BookView, l: Ptr)
    requires BookOk(om, lm, loc, v) && BookOk(om, lm, loc', v') && loc != loc'
    requires l in v.fifo
    ensures l !in v'.fifo
    ensures Live(lm, l)
  {
    hide BookOk;
    FrontOrder(om, lm, loc, v, l);
    if l in v'.fifo {
      FrontOrder(om, lm, loc', v', l);
    }
  }

  /** What an operation on the book of loc leaves of the others. */
  lemma OtherBooks(s: Memory, om': seq<Cell<Order>>, lm': seq<Cell<Level>>, loc: u16, o: Ptr, l: Ptr)
    requires BooksOk(s) && loc in s.books
    requires OrdersKept(s.om, om', s.books[loc], o) && LevelsKept(s.lm, lm', s.books[loc], l)
    requires Live(s.om, o) && s.om[o].value.locate == loc
    requires l in s.books[loc].fifo || !Live(s.lm, l)
    ensures forall x :: x in s.books && x != loc ==> BookOk(om', lm', x, s.books[x])
  {
    hide BookShape;
    forall x | x in s.books && x != loc
      ensures BookOk(om', lm', x, s.books[x])
    {
      forall p | 0 <= p < |s.om| && InBook(s.books[x], p)
        ensures om'[p] == s.om[p]
      {
        OrdersApart(s.om, s.lm, x, s.books[x], p);
        if InBook(s.books[loc], p) {
          OrdersApart(s.om, s.lm, loc, s.books[loc], p);
        }
      }
      forall r | 0 <= r < |s.lm| && r in s.books[x].fifo
        ensures lm'[r] == s.lm[r]
      {
        LevelsApart(s.om, s.lm, x, s.books[x], loc, s.books[loc], r);
      }
      BookFrame(s.om, om', s.lm, lm', x, s.books[x]);
    }
  }

  // ---- reading the queues ----

  lemma IdsFrame(om: seq<Cell<Order>>, om': seq<Cell<Order>>, q: seq<Ptr>)
    requires forall k :: 0 <= k < |q| ==> IdAt(om', q[k]) == IdAt(om, q[k])
    ensures IdsOf(om', q) == IdsOf(om, q)
  {
  }

  lemma IdsAppend(om: seq<Cell<Order>>, q: seq<Ptr>, o: Ptr)
    ensures IdsOf(om, q + [o]) == IdsOf(om, q) + [IdAt(om, o)]
  {
  }

  /** Taking an order out of a queue of slots takes its id out of the queue of ids. */
  lemma {:induction false} IdsWithout(om: seq<Cell<Order>>, q: seq<Ptr>, o: Ptr)
    requires forall i, j :: 0 <= i < |q| && 0 <= j < |q| && IdAt(om, q[i]) == IdAt(om, q[j]) ==> q[i] == q[j]
    requires o in q
    ensures IdsOf(om, Without(q, o)) == Without(IdsOf(om, q), IdAt(om, o))
  {
    var k :| 0 <= k < |q| && q[k] == o;
    var ids := IdsOf(om, q);
    assert ids[0] == IdAt(om, q[0]) && ids[1..] == IdsOf(om, q[1..]);
    if q[0] != o {
      assert ids[0] != IdAt(om, o) by { assert IdAt(om, q[k]) == IdAt(om, o); }
      IdsWithout(om, q[1..], o);
      assert IdsOf(om, [q[0]] + Without(q[1..], o)) == [ids[0]] + IdsOf(om, Without(q[1..], o));
    } else {
      assert ids[0] == IdAt(om, o);
    }
  }

  /** The level of a place is in the book of its instrument, and different places have different levels. */
  lemma PlaceLevel(s: Memory, k: Key)
    requires BooksOk(s) && PlacesTabled(s) && k in s.places
    ensures var v, l := s.books[k.loc], s.places[k];
            l in v.fifo && Live(s.lm, l) && s.lm[l].value.price == k.price && s.lm[l].value.side == k.side
            && QueueAt(s, k) == v.fifo[l]
  {
    hide BookShape;
    LevelAt(s.om, s.lm, k.loc, s.books[k.loc], k.side, k.price);
  }

  /** The orders of a place are live, at that place, and indexed. */
  lemma PlaceQueue(s: Memory, k: Key, p: Ptr)
    requires Coherent(s) && k in s.places && p in QueueAt(s, k)
    ensures InBook(s.books[k.loc], p) && Live(s.om, p)
    ensures RestOf(s.om[p].value).Place() == k
    ensures s.om[p].value.id in s.ids && s.ids[s.om[p].value.id] == p
  {
    hide BookShape;
    PlaceLevel(s, k);
    var l := s.places[k];
    QueueWaits(s.om, s.lm, k.loc, s.books[k.loc], l);
    var i :| 0 <= i < |QueueAt(s, k)| && QueueAt(s, k)[i] == p;
    assert InBook(s.books[k.loc], p);
    IsIndexed(s, k.loc, p);
  }

  // ---- an order arrives ----

  lemma ArrivedMembers(v: BookView, v': BookView, side: Side, px: u32, l: Ptr, o: Ptr)
    requires Arrived(v, v', side, px, l, o)
    ensures forall p :: InBook(v', p) <==> InBook(v, p) || p == o
  {
    forall p | InBook(v, p)
      ensures InBook(v', p)
    {
      var x :| x in v.fifo && p in v.fifo[x];
      assert p in v'.fifo[x];
    }
    assert o in v'.fifo[l];
  }

  /** The memory after an order has been put in a book and indexed. */
  function WithArrival(s: Memory, om': seq<Cell<Order>>, lm': seq<Cell<Level>>, v': BookView, l: Ptr, o: Ptr,
                       x: Order): Memory {
    Memory(om', lm', s.ids[x.id := o], s.books[x.locate := v'], s.places[Key(x.locate, x.side, x.price) := l])
  }

  ghost predicate ArrivalStep(s: Memory, om': seq<Cell<Order>>, lm': seq<Cell<Level>>, v': BookView, l: Ptr, o: Ptr,
                              x: Order) {
    && Coherent(s) && x.locate in s.books && x.id !in s.ids
    && Live(s.om, o) && s.om[o].value == x && Live(om', o) && om'[o].value == x
    && var v := s.books[x.locate];
    && Arrived(v, v', x.side, x.price, l, o) && BookOk(om', lm', x.locate, v')
    && OrdersKept(s.om, om', v, o) && LevelsKept(s.lm, lm', v, l)
    && (if x.price in v.On(x.side).table then l == v.On(x.side).table[x.price] else l !in v.fifo && !Live(s.lm, l))
  }

  lemma ArrivalBooks(s: Memory, om': seq<Cell<Order>>, lm': seq<Cell<Level>>, v': BookView, l: Ptr, o: Ptr, x: Order)
    requires ArrivalStep(s, om', lm', v', l, o, x)
    ensures BooksOk(WithArrival(s, om', lm', v', l, o, x))
  {
    hide BookOk, InBook, OrdersKept, LevelsKept;
    var v := s.books[x.locate];
    if x.price in v.On(x.side).table {
      PlaceLevel(s, Key(x.locate, x.side, x.price));
    }
    OtherBooks(s, om', lm', x.locate, o, l);
  }

  lemma ArrivalIndex(s: Memory, om': seq<Cell<Order>>, lm': seq<Cell<Level>>, v': BookView, l: Ptr, o: Ptr, x: Order)
    requires ArrivalStep(s, om', lm', v', l, o, x)
    ensures IndexedWait(WithArrival(s, om', lm', v', l, o, x))
    ensures WaitingIndexed(WithArrival(s, om', lm', v', l, o, x))
  {
    hide BookOk, InBook, Arrived, LevelsKept;
    var s' := WithArrival(s, om', lm', v', l, o, x);
    ArrivedMembers(s.books[x.locate], v', x.side, x.price, l, o);
    forall loc, p | loc in s'.books && InBook(s'.books[loc], p)
      ensures IdAt(om', p) in s'.ids && s'.ids[IdAt(om', p)] == p
    {
      if p != o {
        assert InBook(s.books[loc], p);
        OrdersApart(s.om, s.lm, loc, s.books[loc], p);
        IsIndexed(s, loc, p);
      } else if loc != x.locate {
        OrdersApart(s.om, s.lm, loc, s.books[loc], p);
      }
    }
  }

  lemma ArrivalPlaces(s: Memory, om': seq<Cell<Order>>, lm': seq<Cell<Level>>, v': BookView, l: Ptr, o: Ptr, x: Order)
    requires ArrivalStep(s, om', lm', v', l, o, x)
    ensures PlacesTabled(WithArrival(s, om', lm', v', l, o, x))
  {
    hide BooksOk, BookOk, IndexedWait, WaitingIndexed, InBook, OrdersKept, LevelsKept;
    var s' := WithArrival(s, om', lm', v', l, o, x);
    forall k: Key | k.loc in s'.books && k.price in s'.books[k.loc].On(k.side).table
      ensures k in s'.places && s'.places[k] == s'.books[k.loc].On(k.side).table[k.price]
    {
      if k.loc != x.locate || k.side != x.side || k.price != x.price {
        assert k.loc in s.books && k.price in s.books[k.loc].On(k.side).table;
      }
    }
  }

  lemma ArrivalOrders(s: Memory, om': seq<Cell<Order>>, lm': seq<Cell<Level>>, v': BookView, l: Ptr, o: Ptr, x: Order)
    requires ArrivalStep(s, om', lm', v', l, o, x) && IndexedWait(WithArrival(s, om', lm', v', l, o, x))
    ensures Orders(WithArrival(s, om', lm', v', l, o, x)) == Orders(s)[x.id := RestOf(x)]
  {
    hide BookOk, InBook, Arrived, LevelsKept;
  }

  lemma ArrivalQueues(s: Memory, om': seq<Cell<Order>>, lm': seq<Cell<Level>>, v': BookView, l: Ptr, o: Ptr, x: Order)
    requires ArrivalStep(s, om', lm', v', l, o, x)
    ensures var k := Key(x.locate, x.side, x.price);
            Queues(WithArrival(s, om', lm', v', l, o, x))
                == Queues(s)[k := (if k in s.places then Queues(s)[k] else []) + [x.id]]
  {
    hide ArrivalStep, QueueAt, IdsOf;
    var s', k := WithArrival(s, om', lm', v', l, o, x), Key(x.locate, x.side, x.price);
    forall y | y in s'.places
      ensures IdsOf(om', QueueAt(s', y))
              == if y == k then (if k in s.places then IdsOf(s.om, QueueAt(s, k)) else []) + [x.id]
                  else IdsOf(s.om, QueueAt(s, y))
    {
      if y == k {
        ArrivalQueueHere(s, om', lm', v', l, o, x);
      } else {
        ArrivalQueueThere(s, om', lm', v', l, o, x, y);
      }
    }
  }

  /** The queue the order joins. */
  lemma ArrivalQueueHere(s: Memory, om': seq<Cell<Order>>, lm': seq<Cell<Level>>, v': BookView, l: Ptr, o: Ptr,
                         x: Order)
    requires ArrivalStep(s, om', lm', v', l, o, x)
    ensures var s', k := WithArrival(s, om', lm', v', l, o, x), Key(x.locate, x.side, x.price);
            IdsOf(om', QueueAt(s', k)) == (if k in s.places then IdsOf(s.om, QueueAt(s, k)) else []) + [x.id]
  {
    hide BookOk, InBook, LevelsKept, IdsOf;
    var s', k := WithArrival(s, om', lm', v', l, o, x), Key(x.locate, x.side, x.price);
    if k in s.places {
      ArrivalSameIds(s, om', lm', v', l, o, x, k);
    }
    assert QueueAt(s', k) == (if k in s.places then QueueAt(s, k) else []) + [o] by {
      if k in s.places { PlaceLevel(s, k); }
    }
    IdsAppend(om', if k in s.places then QueueAt(s, k) else [], o);
    assert IdAt(om', o) == x.id;
    NoIds(om');
  }

  /** Every other queue. */
  lemma ArrivalQueueThere(s: Memory, om': seq<Cell<Order>>, lm': seq<Cell<Level>>, v': BookView, l: Ptr, o: Ptr,
                          x: Order, y: Key)
    requires ArrivalStep(s, om', lm', v', l, o, x) && y in s.places && y != Key(x.locate, x.side, x.price)
    ensures IdsOf(om', QueueAt(WithArrival(s, om', lm', v', l, o, x), y)) == IdsOf(s.om, QueueAt(s, y))
  {
    hide BookOk, InBook, LevelsKept, IdsOf;
    var k := Key(x.locate, x.side, x.price);
    PlaceLevel(s, y);
    ArrivalSameIds(s, om', lm', v', l, o, x, y);
    if y.loc == k.loc && k in s.places {
      PlaceLevel(s, k);
    }
  }

  lemma NoIds(om: seq<Cell<Order>>)
    ensures IdsOf(om, []) == []
  {
  }

  lemma ArrivalSameIds(s: Memory, om': seq<Cell<Order>>, lm': seq<Cell<Level>>, v': BookView, l: Ptr, o: Ptr, x: Order,
                       y: Key)
    requires ArrivalStep(s, om', lm', v', l, o, x) && y in s.places
    ensures IdsOf(om', QueueAt(s, y)) == IdsOf(s.om, QueueAt(s, y))
  {
    hide BookOk, InBook, Arrived, LevelsKept;
    forall p | p in QueueAt(s, y)
      ensures IdAt(om', p) == IdAt(s.om, p)
    {
      PlaceQueue(s, y, p);
    }
    IdsFrame(s.om, om', QueueAt(s, y));
  }

  /** Putting an order in its book and indexing it is an arrival in the market. */
  lemma ArrivalRefines(s: Memory, om': seq<Cell<Order>>, lm': seq<Cell<Level>>, v': BookView, l: Ptr, o: Ptr, x: Order)
    requires ArrivalStep(s, om', lm', v', l, o, x)
    ensures Coherent(WithArrival(s, om', lm', v', l, o, x))
    ensures MarketOf(WithArrival(s, om', lm', v', l, o, x)) == Arrive(MarketOf(s), x.id, RestOf(x))
  {
    hide BooksOk, IndexedWait, WaitingIndexed, PlacesTabled, Orders, Queues, BookOk, InBook, OrdersKept, LevelsKept,
         Arrived;
    ArrivalBooks(s, om', lm', v', l, o, x);
    ArrivalIndex(s, om', lm', v', l, o, x);
    ArrivalPlaces(s, om', lm', v', l, o, x);
    ArrivalOrders(s, om', lm', v', l, o, x);
    ArrivalQueues(s, om', lm', v', l, o, x);
    QueueKeys(s);
  }

  lemma QueueKeys(s: Memory)
    ensures Queues(s).Keys == s.places.Keys
  {
  }

  // ---- an order departs ----

  lemma DepartedMembers(om: seq<Cell<Order>>, lm: seq<Cell<Level>>, loc: u16, v: BookView, v': BookView,
                        side: Side, px: u32, l: Ptr, o: Ptr)
    requires BookOk(om, lm, loc, v) && l in v.fifo && o in v.fifo[l] && Departed(v, v', side, px, l, o)
    ensures forall p :: InBook(v', p) <==> InBook(v, p) && p != o
  {
    hide BookShape;
    QueueDistinct(om, lm, loc, v, l);
    WithoutMembers(v.fifo[l], o);
    forall p | InBook(v', p)
      ensures InBook(v, p) && p != o
    {
      var x :| x in v'.fifo && p in v'.fifo[x];
      assert x in v.fifo && p in v.fifo[x];
      if p == o { QueuesAreDisjoint(om, lm, loc, v, l, x, o); }
    }
    forall p | InBook(v, p) && p != o
      ensures InBook(v', p)
    {
      var x :| x in v.fifo && p in v.fifo[x];
      assert x == l ==> p in Without(v.fifo[l], o);
      assert x in v'.fifo && p in v'.fifo[x];
    }
  }

  /** The level at which an order of the market waits. */
  function PlaceOf(x: Order): Key {
    Key(x.locate, x.side, x.price)
  }

  /** The memory after an order has left its book, its id the index and its slot the live ones. */
  function WithDeparture(s: Memory, om': seq<Cell<Order>>, lm': seq<Cell<Level>>, v': BookView, l: Ptr, o: Ptr,
                         x: Order): Memory
    requires x.locate in s.books
  {
    Memory(om', lm', s.ids - {x.id}, s.books[x.locate := v'],
           if Without(QueueOf(s.books[x.locate].fifo, l), o) == [] then s.places - {PlaceOf(x)} else s.places)
  }

  /** om' is the order memory when the slot of o has been released as well. */
  ghost predicate DepartureStep(s: Memory, om': seq<Cell<Order>>, lm': seq<Cell<Level>>, v': BookView, l: Ptr, o: Ptr,
                                x: Order) {
    && Coherent(s) && x.id in s.ids && s.ids[x.id] == o
    && Live(s.om, o) && s.om[o].value == x && x.locate in s.books
    && var v := s.books[x.locate];
    && l in v.fifo && o in v.fifo[l]
    && x.price in v.On(x.side).table && l == v.On(x.side).table[x.price]
    && Departed(v, v', x.side, x.price, l, o)
    && OrdersKept(s.om, om', v, o) && LevelsKept(s.lm, lm', v, l)
    && BookOk(om', lm', x.locate, v')
  }

  /** Releasing a slot that no queue of the book holds. */
  lemma ReleaseKeepsBook(om: seq<Cell<Order>>, om': seq<Cell<Order>>, lm: seq<Cell<Level>>, loc: u16, v: BookView,
                         o: Ptr)
    requires BookOk(om, lm, loc, v) && !InBook(v, o)
    requires |om'| == |om| && forall p :: 0 <= p < |om| && p != o ==> om'[p] == om[p]
    ensures BookOk(om', lm, loc, v)
  {
    hide BookOk, InBook;
    BookFrame(om, om', lm, lm, loc, v);
  }

  lemma DepartureBooks(s: Memory, om': seq<Cell<Order>>, lm': seq<Cell<Level>>, v': BookView, l: Ptr, o: Ptr, x: Order)
    requires DepartureStep(s, om', lm', v', l, o, x)
    ensures BooksOk(WithDeparture(s, om', lm', v', l, o, x))
  {
    hide BookOk, InBook, OrdersKept, LevelsKept;
    OtherBooks(s, om', lm', x.locate, o, l);
  }

  lemma DepartureIndex(s: Memory, om': seq<Cell<Order>>, lm': seq<Cell<Level>>, v': BookView, l: Ptr, o: Ptr, x: Order)
    requires DepartureStep(s, om', lm', v', l, o, x)
    ensures IndexedWait(WithDeparture(s, om', lm', v', l, o, x))
    ensures WaitingIndexed(WithDeparture(s, om', lm', v', l, o, x))
  {
    hide BookOk, InBook, Departed, LevelsKept;
    var s' := WithDeparture(s, om', lm', v', l, o, x);
    var loc := x.locate;
    DepartedMembers(s.om, s.lm, loc, s.books[loc], v', x.side, x.price, l, o);
    forall loc', p | loc' in s'.books && InBook(s'.books[loc'], p)
      ensures IdAt(om', p) in s'.ids && s'.ids[IdAt(om', p)] == p
    {
      assert InBook(s.books[loc'], p);
      OrdersApart(s.om, s.lm, loc', s.books[loc'], p);
      IsIndexed(s, loc', p);
      assert p != o;
    }
  }

  lemma DeparturePlaces(s: Memory, om': seq<Cell<Order>>, lm': seq<Cell<Level>>, v': BookView, l: Ptr, o: Ptr, x: Order)
    requires DepartureStep(s, om', lm', v', l, o, x)
    ensures PlacesTabled(WithDeparture(s, om', lm', v', l, o, x))
  {
    hide BooksOk, IndexedWait, WaitingIndexed, BookOk, InBook, OrdersKept, LevelsKept;
  }

  lemma DepartureOrders(s: Memory, om': seq<Cell<Order>>, lm': seq<Cell<Level>>, v': BookView, l: Ptr, o: Ptr, x: Order)
    requires DepartureStep(s, om', lm', v', l, o, x) && IndexedWait(WithDeparture(s, om', lm', v', l, o, x))
    ensures Orders(WithDeparture(s, om', lm', v', l, o, x)) == Orders(s) - {x.id}
  {
    hide BookOk, InBook, Departed, LevelsKept;
  }

  lemma DepartureSameIds(s: Memory, om': seq<Cell<Order>>, lm': seq<Cell<Level>>, v': BookView, l: Ptr, o: Ptr,
                         x: Order,
                         y: Key, q: seq<Ptr>)
    requires DepartureStep(s, om', lm', v', l, o, x) && y in s.places
    requires forall p :: p in q ==> p in QueueAt(s, y) && p != o
    ensures IdsOf(om', q) == IdsOf(s.om, q)
  {
    hide BookOk, InBook, Departed, LevelsKept;
    forall p | p in q
      ensures IdAt(om', p) == IdAt(s.om, p)
    {
      PlaceQueue(s, y, p);
    }
    IdsFrame(s.om, om', q);
  }

  /** The queue of the departing order loses its id. */
  lemma DepartureHere(s: Memory, om': seq<Cell<Order>>, lm': seq<Cell<Level>>, v': BookView, l: Ptr, o: Ptr, x: Order)
    requires DepartureStep(s, om', lm', v', l, o, x)
    ensures x.locate in s.books && l in s.books[x.locate].fifo
    ensures PlaceOf(x) in s.places && s.places[PlaceOf(x)] == l && QueueAt(s, PlaceOf(x)) == s.books[x.locate].fifo[l]
    ensures var q := s.books[x.locate].fifo[l];
            IdsOf(om', Without(q, o)) == Without(IdsOf(s.om, q), x.id)
                && (Without(q, o) == [] <==> Without(IdsOf(s.om, q), x.id) == [])
  {
    hide BookOk, InBook, Departed, LevelsKept, OrdersKept, IdsOf, BookShape;
    var k := PlaceOf(x);
    PlaceLevel(s, k);
    var q := s.books[x.locate].fifo[l];
    BookOkShape(s.om, s.lm, x.locate, s.books[x.locate]);
    QueueDistinct(s.om, s.lm, x.locate, s.books[x.locate], l);
    WithoutMembers(q, o);
    forall i, j | 0 <= i < |q| && 0 <= j < |q| && IdAt(s.om, q[i]) == IdAt(s.om, q[j])
      ensures q[i] == q[j]
    {
      PlaceQueue(s, k, q[i]);
      PlaceQueue(s, k, q[j]);
    }
    IdsWithout(s.om, q, o);
    DepartureSameIds(s, om', lm', v', l, o, x, k, Without(q, o));
  }

  lemma BookOkShape(om: seq<Cell<Order>>, lm: seq<Cell<Level>>, loc: u16, v: BookView)
    requires BookOk(om, lm, loc, v)
    ensures BookShape(om, lm, loc, v)
  {
  }

  lemma DepartureQueues(s: Memory, om': seq<Cell<Order>>, lm': seq<Cell<Level>>, v': BookView, l: Ptr, o: Ptr, x: Order)
    requires DepartureStep(s, om', lm', v', l, o, x)
    ensures PlaceOf(x) in s.places
    ensures var rest := Without(Queues(s)[PlaceOf(x)], x.id);
            Queues(WithDeparture(s, om', lm', v', l, o, x))
              == if rest == [] then Queues(s) - {PlaceOf(x)} else Queues(s)[PlaceOf(x) := rest]
  {
    hide DepartureStep, Departed, IdsOf;
    DepartureHere(s, om', lm', v', l, o, x);
    var s', k := WithDeparture(s, om', lm', v', l, o, x), PlaceOf(x);
    forall y | y in s.places && y != k
      ensures QueueAt(s', y) == QueueAt(s, y) && IdsOf(om', QueueAt(s, y)) == IdsOf(s.om, QueueAt(s, y))
    {
      DepartureElsewhere(s, om', lm', v', l, o, x, y);
    }
    DepartedQueue(s, v', l, o, x, om', lm');
  }

  lemma DepartedQueue(s: Memory, v': BookView, l: Ptr, o: Ptr, x: Order, om': seq<Cell<Order>>, lm': seq<Cell<Level>>)
    requires DepartureStep(s, om', lm', v', l, o, x)
    ensures var r := Without(s.books[x.locate].fifo[l], o);
            r != [] ==> QueueOf(v'.fifo, l) == r
  {
    hide BookOk, InBook, LevelsKept, OrdersKept, Coherent;
  }

  lemma DepartureElsewhere(s: Memory, om': seq<Cell<Order>>, lm': seq<Cell<Level>>, v': BookView, l: Ptr, o: Ptr,
                           x: Order,
                           y: Key)
    requires DepartureStep(s, om', lm', v', l, o, x) && y in s.places && y != PlaceOf(x)
    ensures QueueAt(WithDeparture(s, om', lm', v', l, o, x), y) == QueueAt(s, y)
    ensures IdsOf(om', QueueAt(s, y)) == IdsOf(s.om, QueueAt(s, y))
  {
    hide BookOk, InBook, LevelsKept, IdsOf, OrdersKept;
    DepartureHere(s, om', lm', v', l, o, x);
    PlaceLevel(s, y);
    PlaceLevel(s, PlaceOf(x));
    forall p | p in QueueAt(s, y)
      ensures p != o
    {
      PlaceQueue(s, y, p);
    }
    DepartureSameIds(s, om', lm', v', l, o, x, y, QueueAt(s, y));
  }

  /** Taking an order out of its book, the index and the pool is a departure in the market. */
  lemma DepartureRefines(s: Memory, om': seq<Cell<Order>>, lm': seq<Cell<Level>>, v': BookView, l: Ptr, o: Ptr,
                         x: Order)
    requires DepartureStep(s, om', lm', v', l, o, x)
    ensures x.id in MarketOf(s).orders && MarketOf(s).orders[x.id] == RestOf(x)
    ensures Coherent(WithDeparture(s, om', lm', v', l, o, x))
    ensures MarketOf(WithDeparture(s, om', lm', v', l, o, x)) == Leave(MarketOf(s), x.id)
  {
    hide BooksOk, IndexedWait, WaitingIndexed, PlacesTabled, Queues, BookOk, InBook, OrdersKept, LevelsKept, Departed;
    DepartureBooks(s, om', lm', v', l, o, x);
    DepartureIndex(s, om', lm', v', l, o, x);
    DeparturePlaces(s, om', lm', v', l, o, x);
    DepartureOrders(s, om', lm', v', l, o, x);
    DepartureQueues(s, om', lm', v', l, o, x);
    QueueKeys(s);
  }

  // ---- an order shrinks ----

  ghost predicate ReductionStep(s: Memory, om': seq<Cell<Order>>, lm': seq<Cell<Level>>, l: Ptr, o: Ptr, x: Order,
                                qty: u32) {
    && Coherent(s) && x.id in s.ids && s.ids[x.id] == o
    && Live(s.om, o) && s.om[o].value == x && x.locate in s.books && qty < x.shares
    && om' == s.om[o := Reduced(s.om[o], qty)]
    && l in s.books[x.locate].fifo
    && OrdersKept(s.om, om', s.books[x.locate], o) && LevelsKept(s.lm, lm', s.books[x.locate], l)
    && BookOk(om', lm', x.locate, s.books[x.locate])
  }

  lemma ReductionRefines(s: Memory, om': seq<Cell<Order>>, lm': seq<Cell<Level>>, l: Ptr, o: Ptr, x: Order, qty: u32)
    requires ReductionStep(s, om', lm', l, o, x, qty)
    ensures x.id in MarketOf(s).orders && MarketOf(s).orders[x.id] == RestOf(x)
    ensures Coherent(s.(om := om', lm := lm'))
    ensures MarketOf(s.(om := om', lm := lm')) == Shrink(MarketOf(s), x.id, qty)
  {
    hide BookOk, InBook, OrdersKept, LevelsKept;
    var s' := s.(om := om', lm := lm');
    OtherBooks(s, om', lm', x.locate, o, l);
    SameIdsCoherent(s, om', lm');
    assert Orders(s') == Orders(s)[x.id := RestOf(x).(shares := x.shares - qty)];
  }

  /** When the books are known to be intact and no order has lost its id, instrument, side or price, the index
      and the queues are as before. */
  lemma SameIdsCoherent(s: Memory, om': seq<Cell<Order>>, lm': seq<Cell<Level>>)
    requires Coherent(s) && BooksOk(s.(om := om', lm := lm'))
    requires forall p :: Live(s.om, p) ==> Live(om', p) && om'[p].value.id == s.om[p].value.id
                                           && om'[p].value.locate == s.om[p].value.locate
    ensures Coherent(s.(om := om', lm := lm'))
    ensures Queues(s.(om := om', lm := lm')) == Queues(s)
  {
    hide BookOk, InBook, BooksOk;
    var s' := s.(om := om', lm := lm');
    forall loc, p | loc in s'.books && InBook(s'.books[loc], p)
      ensures IdAt(s'.om, p) in s'.ids && s'.ids[IdAt(s'.om, p)] == p
    {
      BookAt(s, loc);
      OrdersApart(s.om, s.lm, loc, s.books[loc], p);
      IsIndexed(s, loc, p);
    }
    forall k | k in s.places
      ensures IdsOf(om', QueueAt(s, k)) == IdsOf(s.om, QueueAt(s, k))
    {
      forall p | p in QueueAt(s, k)
        ensures IdAt(om', p) == IdAt(s.om, p)
      {
        PlaceQueue(s, k, p);
      }
      IdsFrame(s.om, om', QueueAt(s, k));
    }
  }

  lemma BookAt(s: Memory, loc: u16)
    requires BooksOk(s) && loc in s.books
    ensures BookOk(s.om, s.lm, loc, s.books[loc])
  {
  }

  // ---- slots in transit and new books ----

  /** Slot o belongs to no live order of the market. */
  ghost predicate Unused(s: Memory, o: Ptr) {
    && (forall loc :: loc in s.books ==> !InBook(s.books[loc], o))
    && (forall id :: id in s.ids ==> s.ids[id] != o)
  }

  lemma NotIndexedIsUnused(s: Memory, o: Ptr)
    requires Coherent(s)
    requires !Live(s.om, o) || s.om[o].value.id !in s.ids
    ensures Unused(s, o)
  {
    hide BookOk, InBook;
    forall loc | loc in s.books
      ensures !InBook(s.books[loc], o)
    {
      if InBook(s.books[loc], o) {
        OrdersApart(s.om, s.lm, loc, s.books[loc], o);
        IsIndexed(s, loc, o);
      }
    }
  }

  /** Writing to a slot in transit, be it construction or release, means nothing to the market. */
  lemma UnusedSlotWrite(s: Memory, om': seq<Cell<Order>>, o: Ptr)
    requires Coherent(s) && Unused(s, o) && |om'| == |s.om|
    requires forall p :: 0 <= p < |s.om| && p != o ==> om'[p] == s.om[p]
    ensures Coherent(s.(om := om')) && MarketOf(s.(om := om')) == MarketOf(s)
  {
    hide BookOk, InBook;
    var s' := s.(om := om');
    forall loc | loc in s.books
      ensures BookOk(om', s.lm, loc, s.books[loc])
    {
      BookFrame(s.om, om', s.lm, s.lm, loc, s.books[loc]);
    }
    forall loc, p | loc in s'.books && InBook(s'.books[loc], p)
      ensures IdAt(om', p) in s'.ids && s'.ids[IdAt(om', p)] == p
    {
      OrdersApart(s.om, s.lm, loc, s.books[loc], p);
      IsIndexed(s, loc, p);
    }
    forall k | k in s.places
      ensures IdsOf(om', QueueAt(s, k)) == IdsOf(s.om, QueueAt(s, k))
    {
      forall p | p in QueueAt(s, k)
        ensures IdAt(om', p) == IdAt(s.om, p)
      {
        PlaceQueue(s, k, p);
      }
      IdsFrame(s.om, om', QueueAt(s, k));
    }
    assert Orders(s') == Orders(s);
    assert Queues(s') == Queues(s);
  }

  lemma NewBookIsEmpty(s: Memory, loc: u16)
    requires Coherent(s) && loc !in s.books
    ensures Coherent(s.(books := s.books[loc := EMPTY_BOOK]))
    ensures MarketOf(s.(books := s.books[loc := EMPTY_BOOK])) == MarketOf(s)
  {
    hide BookOk, InBook, IdsOf, Coherent;
    CoherentParts(s);
    EmptyBookOk(s.om, s.lm, loc);
    var s' := s.(books := s.books[loc := EMPTY_BOOK]);
    NoneInEmptyBook();
    NewBookIndex(s, s', loc);
    NewBookPlaces(s, s', loc);
    assert Queues(s') == Queues(s);
    assert Orders(s') == Orders(s);
    CoherentIs(s');
  }

  lemma CoherentParts(s: Memory)
    requires Coherent(s)
    ensures BooksOk(s) && IndexedWait(s) && WaitingIndexed(s) && PlacesTabled(s)
  {
  }

  lemma CoherentIs(s: Memory)
    requires BooksOk(s) && IndexedWait(s) && WaitingIndexed(s) && PlacesTabled(s)
    ensures Coherent(s)
  {
  }

  lemma NoneInEmptyBook()
    ensures forall p :: !InBook(EMPTY_BOOK, p)
  {
  }

  lemma NewBookIndex(s: Memory, s': Memory, loc: u16)
    requires IndexedWait(s) && WaitingIndexed(s) && loc !in s.books && s' == s.(books := s.books[loc := EMPTY_BOOK])
    requires forall p :: !InBook(EMPTY_BOOK, p)
    ensures IndexedWait(s') && WaitingIndexed(s')
  {
    hide InBook;
  }

  lemma NewBookPlaces(s: Memory, s': Memory, loc: u16)
    requires PlacesTabled(s) && loc !in s.books && s' == s.(books := s.books[loc := EMPTY_BOOK])
    ensures PlacesTabled(s') && forall k :: k in s.places ==> QueueAt(s', k) == QueueAt(s, k)
  {
  }

  // ---- the book of one instrument is wiped ----

  lemma {:induction false} WalkMembers(list: seq<Ptr>, fifo: map<Ptr, seq<Ptr>>)
    ensures forall p :: p in Walk(list, fifo) <==> exists l :: l in list && p in QueueOf(fifo, l)
  {
    if list != [] {
      var rest, last := list[..|list| - 1], list[|list| - 1];
      WalkMembers(rest, fifo);
      assert list == rest + [last];
      forall p | p in Walk(list, fifo)
        ensures exists l :: l in list && p in QueueOf(fifo, l)
      {
        if p in Walk(rest, fifo) {
          var l :| l in rest && p in QueueOf(fifo, l);
          assert l in list;
        } else {
          assert last in list && p in QueueOf(fifo, last);
        }
      }
    }
  }

  lemma {:induction false} WalkDistinct(list: seq<Ptr>, fifo: map<Ptr, seq<Ptr>>)
    requires Distinct(list)
    requires forall l :: l in list ==> Distinct(QueueOf(fifo, l))
    requires forall l, l', p :: l in list && l' in list && p in QueueOf(fifo, l) && p in QueueOf(fifo, l') ==> l == l'
    ensures Distinct(Walk(list, fifo))
  {
    if list != [] {
      var rest, last := list[..|list| - 1], list[|list| - 1];
      assert list == rest + [last];
      assert forall l :: l in rest ==> l in list && l != last;
      WalkDistinct(rest, fifo);
      WalkMembers(rest, fifo);
      var a, b := Walk(rest, fifo), QueueOf(fifo, last);
      forall p | p in b
        ensures p !in a
      {
        assert last in list;
      }
      DistinctConcat(a, b);
    }
  }

  /** for_each_order visits every order of the book exactly once. */
  lemma VisitsEachOnce(om: seq<Cell<Order>>, lm: seq<Cell<Level>>, loc: u16, v: BookView)
    requires BookOk(om, lm, loc, v)
    ensures var visited := Walk(v.bid.list, v.fifo) + Walk(v.ask.list, v.fifo);
            && Distinct(visited) && |visited| == v.live
            && forall p :: p in visited <==> InBook(v, p)
  {
    hide BookShape, Walk;
    ListedLevels(om, lm, loc, v);
    SideMembers(om, lm, loc, v);
    LiveIsWalk(om, lm, loc, v);
    WalkMembers(v.bid.list, v.fifo);
    WalkMembers(v.ask.list, v.fifo);
    forall l | l in v.fifo
      ensures Distinct(QueueOf(v.fifo, l))
    {
      QueueDistinct(om, lm, loc, v, l);
    }
    forall l, l', p | l in v.fifo && l' in v.fifo && p in QueueOf(v.fifo, l) && p in QueueOf(v.fifo, l')
      ensures l == l'
    {
      QueuesAreDisjoint(om, lm, loc, v, l, l', p);
    }
    WalkDistinct(v.bid.list, v.fifo);
    WalkDistinct(v.ask.list, v.fifo);
    forall p | p in Walk(v.bid.list, v.fifo)
      ensures p !in Walk(v.ask.list, v.fifo)
    {
    }
    DistinctConcat(Walk(v.bid.list, v.fifo), Walk(v.ask.list, v.fifo));
  }

  lemma LiveIsWalk(om: seq<Cell<Order>>, lm: seq<Cell<Level>>, loc: u16, v: BookView)
    requires BookShape(om, lm, loc, v)
    ensures v.live == |Walk(v.bid.list, v.fifo)| + |Walk(v.ask.list, v.fifo)|
  {
  }

  /** The ids that live in one instrument's book. */
  ghost function IdsAt(s: Memory, loc: u16): set<OrderId>
    requires IndexedWait(s)
  {
    set id | id in s.ids && s.om[s.ids[id]].value.locate == loc
  }

  ghost function PlacesAt(s: Memory, loc: u16): set<Key> {
    set k | k in s.places && k.loc == loc
  }

  function OtherPlaces(places: map<Key, Ptr>, loc: u16): map<Key, Ptr> {
    map k | k in places && k.loc != loc :: places[k]
  }

  function Wiped(s: Memory, om': seq<Cell<Order>>, lm': seq<Cell<Level>>, ids': map<OrderId, Ptr>, loc: u16): Memory {
    Memory(om', lm', ids', s.books[loc := EMPTY_BOOK], OtherPlaces(s.places, loc))
  }

  ghost predicate WipeStep(s: Memory, om': seq<Cell<Order>>, lm': seq<Cell<Level>>, ids': map<OrderId, Ptr>, loc: u16) {
    && Coherent(s) && loc in s.books
    && |om'| == |s.om| && (forall p :: 0 <= p < |s.om| && !InBook(s.books[loc], p) ==> om'[p] == s.om[p])
    && LevelsKept(s.lm, lm', s.books[loc], NULL)
    && ids' == s.ids - IdsAt(s, loc)
  }

  ghost predicate OthersUntouched(s: Memory, om': seq<Cell<Order>>, loc: u16) {
    forall x, p :: x in s.books && x != loc && InBook(s.books[x], p) ==>
      Live(s.om, p) && Live(om', p) && om'[p] == s.om[p] && s.om[p].value.locate == x
  }

  lemma WipeBooks(s: Memory, om': seq<Cell<Order>>, lm': seq<Cell<Level>>, ids': map<OrderId, Ptr>, loc: u16)
    requires WipeStep(s, om', lm', ids', loc)
    ensures BooksOk(Wiped(s, om', lm', ids', loc))
    ensures OthersUntouched(s, om', loc)
  {
    hide BookOk, InBook;
    EmptyBookOk(om', lm', loc);
    forall x, p | x in s.books && x != loc && InBook(s.books[x], p)
      ensures Live(s.om, p) && om'[p] == s.om[p] && s.om[p].value.locate == x
    {
      OrdersApart(s.om, s.lm, x, s.books[x], p);
      if InBook(s.books[loc], p) {
        OrdersApart(s.om, s.lm, loc, s.books[loc], p);
      }
    }
    forall x | x in s.books && x != loc
      ensures BookOk(om', lm', x, s.books[x])
    {
      forall r | 0 <= r < |s.lm| && r in s.books[x].fifo
        ensures lm'[r] == s.lm[r]
      {
        LevelsApart(s.om, s.lm, x, s.books[x], loc, s.books[loc], r);
      }
      BookFrame(s.om, om', s.lm, lm', x, s.books[x]);
    }
  }

  lemma WipeIndex(s: Memory, om': seq<Cell<Order>>, lm': seq<Cell<Level>>, ids': map<OrderId, Ptr>, loc: u16)
    requires WipeStep(s, om', lm', ids', loc) && OthersUntouched(s, om', loc)
    ensures IndexedWait(Wiped(s, om', lm', ids', loc))
  {
    hide BooksOk, WaitingIndexed, PlacesTabled, InBook, LevelsKept;
  }

  lemma WipeWaiting(s: Memory, om': seq<Cell<Order>>, lm': seq<Cell<Level>>, ids': map<OrderId, Ptr>, loc: u16)
    requires WipeStep(s, om', lm', ids', loc) && OthersUntouched(s, om', loc)
    ensures WaitingIndexed(Wiped(s, om', lm', ids', loc))
  {
    hide BooksOk, WaitingIndexed, PlacesTabled, InBook, LevelsKept;
    var s' := Wiped(s, om', lm', ids', loc);
    NoneInEmptyBook();
    forall x, p | x in s'.books && InBook(s'.books[x], p)
      ensures IdAt(om', p) in s'.ids && s'.ids[IdAt(om', p)] == p
    {
      IsIndexed(s, x, p);
    }
    WaitingIndexedIs(s');
  }

  lemma WaitingIndexedIs(s: Memory)
    requires forall loc, p :: loc in s.books && InBook(s.books[loc], p) ==>
               IdAt(s.om, p) in s.ids && s.ids[IdAt(s.om, p)] == p
    ensures WaitingIndexed(s)
  {
  }

  lemma WipePlaces(s: Memory, om': seq<Cell<Order>>, lm': seq<Cell<Level>>, ids': map<OrderId, Ptr>, loc: u16)
    requires WipeStep(s, om', lm', ids', loc)
    ensures PlacesTabled(Wiped(s, om', lm', ids', loc))
  {
    hide BooksOk, WaitingIndexed, IndexedWait, InBook, LevelsKept;
  }

  lemma WipeSameIds(s: Memory, om': seq<Cell<Order>>, lm': seq<Cell<Level>>, ids': map<OrderId, Ptr>, loc: u16, k: Key)
    requires WipeStep(s, om', lm', ids', loc) && OthersUntouched(s, om', loc) && k in s.places && k.loc != loc
    ensures QueueAt(Wiped(s, om', lm', ids', loc), k) == QueueAt(s, k)
    ensures IdsOf(om', QueueAt(s, k)) == IdsOf(s.om, QueueAt(s, k))
  {
    hide BooksOk, WaitingIndexed, IndexedWait, InBook, LevelsKept, IdsOf;
    PlaceLevelHere(s, k);
    forall p | p in QueueAt(s, k)
      ensures IdAt(om', p) == IdAt(s.om, p)
    {
      PlaceQueue(s, k, p);
    }
    IdsFrame(s.om, om', QueueAt(s, k));
  }

  lemma PlaceLevelHere(s: Memory, k: Key)
    requires Coherent(s) && k in s.places
    ensures k.loc in s.books
  {
  }

  lemma WipeQueues(s: Memory, om': seq<Cell<Order>>, lm': seq<Cell<Level>>, ids': map<OrderId, Ptr>, loc: u16)
    requires WipeStep(s, om', lm', ids', loc)
    ensures Queues(Wiped(s, om', lm', ids', loc)) == map k | k in Queues(s) && k.loc != loc :: Queues(s)[k]
  {
    hide WipeStep, QueueAt, IdsOf, OthersUntouched;
    var s' := Wiped(s, om', lm', ids', loc);
    WipeBooks(s, om', lm', ids', loc);
    forall k | k in s.places && k.loc != loc
      ensures QueueAt(s', k) == QueueAt(s, k) && IdsOf(om', QueueAt(s, k)) == IdsOf(s.om, QueueAt(s, k))
    {
      WipeSameIds(s, om', lm', ids', loc, k);
    }
  }

  /** Releasing every order and level of one instrument clears its part of the market and nothing else. */
  lemma WipeRefines(s: Memory, om': seq<Cell<Order>>, lm': seq<Cell<Level>>, ids': map<OrderId, Ptr>, loc: u16)
    requires WipeStep(s, om', lm', ids', loc)
    ensures Coherent(Wiped(s, om', lm', ids', loc))
    ensures MarketOf(Wiped(s, om', lm', ids', loc)) == ClearBook(MarketOf(s), loc)
  {
    hide BookOk, InBook, LevelsKept, BooksOk, WaitingIndexed, PlacesTabled, IdsOf, QueueAt, OthersUntouched;
    var s' := Wiped(s, om', lm', ids', loc);
    WipeBooks(s, om', lm', ids', loc);
    WipeIndex(s, om', lm', ids', loc);
    WipeWaiting(s, om', lm', ids', loc);
    WipePlaces(s, om', lm', ids', loc);
    WipeQueues(s, om', lm', ids', loc);
    assert Queues(s') == ClearBook(MarketOf(s), loc).queues;
    WipeOrders(s, om', lm', ids', loc);
  }

  lemma WipeOrders(s: Memory, om': seq<Cell<Order>>, lm': seq<Cell<Level>>, ids': map<OrderId, Ptr>, loc: u16)
    requires WipeStep(s, om', lm', ids', loc) && OthersUntouched(s, om', loc)
    requires IndexedWait(Wiped(s, om', lm', ids', loc))
    ensures Orders(Wiped(s, om', lm', ids', loc)) == ClearBook(MarketOf(s), loc).orders
  {
    hide BooksOk, WaitingIndexed, PlacesTabled, InBook, LevelsKept, Queues;
    assert OrdersAt(MarketOf(s), loc) == IdsAt(s, loc);
  }

  /** The ids that are left when the orders in gone have been retired. */
  function Remaining(ids: map<OrderId, Ptr>, gone: seq<Ptr>): map<OrderId, Ptr> {
    map id | id in ids && ids[id] !in gone :: ids[id]
  }

  ghost predicate AllIndexed(s: Memory, ps: seq<Ptr>) {
    forall p :: p in ps ==> Live(s.om, p) && IdAt(s.om, p) in s.ids && s.ids[IdAt(s.om, p)] == p
  }

  lemma RemainingStep(s: Memory, gone: seq<Ptr>, p: Ptr)
    requires IndexedWait(s) && p !in gone && Live(s.om, p) && IdAt(s.om, p) in s.ids && s.ids[IdAt(s.om, p)] == p
    ensures var left, id := Remaining(s.ids, gone), IdAt(s.om, p);
            id in left && left[id] == p && Remaining(s.ids, gone + [p]) == left - {id}
  {
    hide InBook;
  }

  /** The walk over an instrument's book finds exactly its ids. */
  lemma WalkFindsIds(s: Memory, loc: u16, visited: seq<Ptr>)
    requires Coherent(s) && loc in s.books
    requires visited == Walk(s.books[loc].bid.list, s.books[loc].fifo) + Walk(s.books[loc].ask.list, s.books[loc].fifo)
    ensures Distinct(visited) && AllIndexed(s, visited)
    ensures forall p :: p in visited <==> InBook(s.books[loc], p)
    ensures Remaining(s.ids, visited) == s.ids - IdsAt(s, loc)
  {
    hide BookOk, InBook, BooksOk, WaitingIndexed, PlacesTabled, Walk;
    CoherentParts(s);
    BookAt(s, loc);
    VisitsEachOnce(s.om, s.lm, loc, s.books[loc]);
    forall p | p in visited
      ensures Live(s.om, p) && IdAt(s.om, p) in s.ids && s.ids[IdAt(s.om, p)] == p
      ensures s.om[p].value.locate == loc
    {
      OrdersApart(s.om, s.lm, loc, s.books[loc], p);
      IsIndexed(s, loc, p);
    }
  }

  lemma NoMarketThere(s: Memory, loc: u16)
    requires Coherent(s) && loc !in s.books
    ensures ClearBook(MarketOf(s), loc) == MarketOf(s)
  {
    hide BookOk, InBook, IdsOf, QueueAt;
    assert OrdersAt(MarketOf(s), loc) == {};
    assert LevelsAt(MarketOf(s), loc) == {};
  }

  /** The places of an instrument are as many as the levels on its two lists. */
  lemma PlacesAreLevels(s: Memory, loc: u16)
    requires Coherent(s) && loc in s.books
    ensures |PlacesAt(s, loc)| == |s.books[loc].bid.list| + |s.books[loc].ask.list|
  {
    hide Coherent;
    var bids := PlacesOn(s, loc, Buy);
    var asks := PlacesOn(s, loc, Sell);
    var onBid: set<Key>, onAsk: set<Key> := set k | k in bids, set k | k in asks;
    DistinctCardinality(bids, onBid);
    DistinctCardinality(asks, onAsk);
    assert PlacesAt(s, loc) == onBid + onAsk && onBid !! onAsk;
  }

  lemma CountsAreLevels(s: Memory, loc: u16)
    requires Coherent(s) && loc in s.books
    ensures |PlacesAt(s, loc)| == s.books[loc].bid.count + s.books[loc].ask.count
    ensures |PlacesAt(s, loc)| == |s.books[loc].bid.list| + |s.books[loc].ask.list|
    ensures |PlacesAt(s, loc)| <= |s.places| && |OtherPlaces(s.places, loc)| == |s.places| - |PlacesAt(s, loc)|
    ensures BookShape(s.om, s.lm, loc, s.books[loc])
  {
    hide Coherent, BookShape, BookOk, BooksOk, SideOk, PlacesAt, OtherPlaces;
    PlacesAreLevels(s, loc);
    OtherPlacesSize(s, loc);
    CoherentParts(s);
    BookAt(s, loc);
    BookOkShape(s.om, s.lm, loc, s.books[loc]);
    SideCounts(s.om, s.lm, loc, s.books[loc]);
  }

  lemma SideCounts(om: seq<Cell<Order>>, lm: seq<Cell<Level>>, loc: u16, v: BookView)
    requires BookShape(om, lm, loc, v)
    ensures v.bid.count == |v.bid.list| && v.ask.count == |v.ask.list|
  {
    hide Ordered, Mapped, Linked, Waiting;
  }

  lemma OtherPlacesSize(s: Memory, loc: u16)
    ensures |PlacesAt(s, loc)| <= |s.places| && |OtherPlaces(s.places, loc)| == |s.places| - |PlacesAt(s, loc)|
  {
    SubsetCardinality(PlacesAt(s, loc), s.places.Keys);
    assert OtherPlaces(s.places, loc).Keys == s.places.Keys - PlacesAt(s, loc);
  }

  lemma PlacesOn(s: Memory, loc: u16, side: Side) returns (keys: seq<Key>)
    requires Coherent(s) && loc in s.books
    ensures Distinct(keys) && |keys| == |s.books[loc].On(side).list|
    ensures forall k :: k in keys <==> k in s.places && k.loc == loc && k.side == side
  {
    hide BookShape, Linked, InBook;
    var v := s.books[loc].On(side);
    BookOkShape(s.om, s.lm, loc, s.books[loc]);
    SideOf(s.om, s.lm, loc, s.books[loc], side);
    keys := seq(|v.list|, i requires 0 <= i < |v.list| => Key(loc, side, s.lm[v.list[i]].value.price));
    forall k | k in s.places && k.loc == loc && k.side == side
      ensures k in keys
    {
      var i :| 0 <= i < |v.list| && v.list[i] == v.table[k.price];
      assert keys[i] == k;
    }
  }

  // ---- from an operation on a book to a change of the market ----

  lemma MarketSizes(s: Memory)
    requires IndexedWait(s)
    ensures |MarketOf(s).orders| == |s.ids| && |MarketOf(s).queues| == |s.places|
    ensures MarketOf(s).orders.Keys == s.ids.Keys && MarketOf(s).queues.Keys == s.places.Keys
  {
    assert MarketOf(s).orders.Keys == s.ids.Keys;
    assert MarketOf(s).queues.Keys == s.places.Keys;
  }

  /** The book of x has let it go (s' is the memory afterwards), but the index and the pool have not yet. */
  ghost predicate Departing(s: Memory, free: seq<Ptr>, s': Memory, free': seq<Ptr>, o: Ptr, x: Order, rc: int, l: Ptr) {
    && Coherent(s) && x.id in s.ids && s.ids[x.id] == o && Live(s.om, o) && s.om[o].value == x
    && x.locate in s.books && x.locate in s'.books
    && var v' := s'.books[x.locate];
    && s' == Memory(s'.om, s'.lm, s.ids, s.books[x.locate := v'], s.places)
    && LeaveEffect(Scene(s.om, s.lm, s.books[x.locate], free), Scene(s'.om, s'.lm, v', free'), o, rc, l)
    && s'.om[o].value.id == x.id
    && BookOk(s'.om, s'.lm, x.locate, v')
  }

  lemma DepartingLive(s: Memory, free: seq<Ptr>, s': Memory, free': seq<Ptr>, o: Ptr, x: Order, rc: int, l: Ptr)
    requires Departing(s, free, s', free', o, x, rc, l)
    ensures Live(s'.om, o) && s'.om[o].value.id == x.id && s'.ids == s.ids && s'.places == s.places
    ensures x.id in s.ids && s.ids[x.id] == o
    ensures PlaceOf(x) in s.places
  {
    hide BookOk, InBook, Coherent;
    CoherentParts(s);
  }

  lemma DepartingIsDeparture(s: Memory, free: seq<Ptr>, s': Memory, free': seq<Ptr>, o: Ptr, x: Order, rc: int, l: Ptr,
                             om2: seq<Cell<Order>>)
    requires Departing(s, free, s', free', o, x, rc, l)
    requires |om2| == |s'.om| && om2 == s'.om[o := om2[o]]
    ensures DepartureStep(s, om2, s'.lm, s'.books[x.locate], l, o, x)
  {
    hide BookOk, InBook, Departed, LevelsKept, Coherent;
    var v, v' := s.books[x.locate], s'.books[x.locate];
    CoherentParts(s);
    BookAt(s, x.locate);
    DepartedMembers(s.om, s.lm, x.locate, v, v', x.side, x.price, l, o);
    ReleaseKeepsBook(s'.om, om2, s'.lm, x.locate, v', o);
  }

  /** The memory once the order has left the index and the pool, and its level the places if it went. */
  function Cleaned(s': Memory, om2: seq<Cell<Order>>, x: Order, rc: int): Memory {
    Memory(om2, s'.lm, s'.ids - {x.id}, s'.books, if rc == 2 then s'.places - {PlaceOf(x)} else s'.places)
  }

  lemma CleanedRefines(s: Memory, free: seq<Ptr>, s': Memory, free': seq<Ptr>, o: Ptr, x: Order, rc: int, l: Ptr,
                       om2: seq<Cell<Order>>)
    requires Departing(s, free, s', free', o, x, rc, l)
    requires |om2| == |s'.om| && om2 == s'.om[o := om2[o]]
    ensures x.id in MarketOf(s).orders && MarketOf(s).orders[x.id] == RestOf(x) && PlaceOf(x) in s.places
    ensures Coherent(Cleaned(s', om2, x, rc))
    ensures MarketOf(Cleaned(s', om2, x, rc)) == Leave(MarketOf(s), x.id)
    ensures |free'| == |free| + (if rc == 2 then 1 else 0)
  {
    hide BookOk, InBook, Departed, LevelsKept, OrdersKept, Coherent, DepartureStep;
    DepartingIsDeparture(s, free, s', free', o, x, rc, l, om2);
    DepartureRefines(s, om2, s'.lm, s'.books[x.locate], l, o, x);
    DepartureHere(s, om2, s'.lm, s'.books[x.locate], l, o, x);
    assert Cleaned(s', om2, x, rc) == WithDeparture(s, om2, s'.lm, s'.books[x.locate], l, o, x);
  }

  /** The book of x has taken it in, but the index has not yet. */
  ghost predicate Arriving(s: Memory, free: seq<Ptr>, s': Memory, free': seq<Ptr>, o: Ptr, x: Order, rc: int, l: Ptr) {
    && Coherent(s) && x.id !in s.ids && Live(s.om, o) && s.om[o].value == x
    && x.locate in s.books && x.locate in s'.books && rc != 0
    && (forall p :: p in free ==> !Live(s.lm, p))
    && var v' := s'.books[x.locate];
    && s' == Memory(s'.om, s'.lm, s.ids, s.books[x.locate := v'], s.places)
    && AddEffect(Scene(s.om, s.lm, s.books[x.locate], free), Scene(s'.om, s'.lm, v', free'), o, rc, l)
    && BookOk(s'.om, s'.lm, x.locate, v')
  }

  lemma ArrivingLive(s: Memory, free: seq<Ptr>, s': Memory, free': seq<Ptr>, o: Ptr, x: Order, rc: int, l: Ptr)
    requires Arriving(s, free, s', free', o, x, rc, l)
    ensures Live(s'.om, o) && s'.om[o].value == x && s'.ids == s.ids && s'.places == s.places && x.id !in s.ids
    ensures rc == 1 || rc == 2
  {
    hide BookOk, InBook, Coherent;
  }

  function Entered(s': Memory, o: Ptr, x: Order, l: Ptr): Memory {
    Memory(s'.om, s'.lm, s'.ids[x.id := o], s'.books, s'.places[PlaceOf(x) := l])
  }

  lemma EnteredRefines(s: Memory, free: seq<Ptr>, s': Memory, free': seq<Ptr>, o: Ptr, x: Order, rc: int, l: Ptr)
    requires Arriving(s, free, s', free', o, x, rc, l)
    ensures Coherent(Entered(s', o, x, l))
    ensures MarketOf(Entered(s', o, x, l)) == Arrive(MarketOf(s), x.id, RestOf(x))
    ensures rc == 1 <==> PlaceOf(x) in s.places
    ensures rc == 2 ==> |free'| == |free| - 1
    ensures rc == 1 ==> free' == free
  {
    hide BookOk, InBook, Arrived, LevelsKept, OrdersKept;
    PlaceIffTabled(s, x);
    assert Entered(s', o, x, l) == WithArrival(s, s'.om, s'.lm, s'.books[x.locate], l, o, x);
    ArrivalRefines(s, s'.om, s'.lm, s'.books[x.locate], l, o, x);
  }

  lemma PlaceIffTabled(s: Memory, x: Order)
    requires Coherent(s) && x.locate in s.books
    ensures PlaceOf(x) in s.places <==> x.price in s.books[x.locate].On(x.side).table
    ensures PlaceOf(x) in MarketOf(s).queues <==> PlaceOf(x) in s.places
  {
    QueueKeys(s);
  }

  /** A live id leads to a live order that waits in the book of its instrument. */
  lemma FoundOrder(s: Memory, id: OrderId)
    requires Coherent(s) && id in s.ids
    ensures var o := s.ids[id];
            && Live(s.om, o) && s.om[o].value.id == id && s.om[o].value.locate in s.books
            && var loc := s.om[o].value.locate;
            && InBook(s.books[loc], o) && BookOk(s.om, s.lm, loc, s.books[loc])
    ensures IndexedWait(s) && id in MarketOf(s).orders && MarketOf(s).orders[id] == RestOf(s.om[s.ids[id]].value)
  {
    hide BookOk, InBook;
  }

  lemma ExecutedStep(s: Memory, free: seq<Ptr>, s': Memory, free': seq<Ptr>, o: Ptr, x: Order, qty: u32, rc: int,
                     l: Ptr)
    requires Coherent(s) && x.id in s.ids && s.ids[x.id] == o && Live(s.om, o) && s.om[o].value == x
    requires x.locate in s.books && x.locate in s'.books
    requires s' == Memory(s'.om, s'.lm, s.ids, s.books[x.locate := s'.books[x.locate]], s.places)
    requires ExecuteEffect(Scene(s.om, s.lm, s.books[x.locate], free), Scene(s'.om, s'.lm, s'.books[x.locate], free'),
                           o, qty, rc, l)
    requires BookOk(s'.om, s'.lm, x.locate, s'.books[x.locate])
    ensures rc == 0 <==> qty < x.shares
    ensures rc == 0 ==>
              free' == free && ReductionStep(s, s'.om, s'.lm, l, o, x, qty) && s' == s.(om := s'.om, lm := s'.lm)
    ensures rc != 0 ==> Departing(s, free, s', free', o, x, rc, l) && rc in {1, 2}
  {
    hide BookOk, InBook, Coherent, Departed, OrdersKept, LevelsKept;
  }

  lemma RemovedStep(s: Memory, free: seq<Ptr>, s': Memory, free': seq<Ptr>, o: Ptr, x: Order, rc: int, l: Ptr)
    requires Coherent(s) && x.id in s.ids && s.ids[x.id] == o && Live(s.om, o) && s.om[o].value == x
    requires x.locate in s.books && x.locate in s'.books
    requires s' == Memory(s'.om, s'.lm, s.ids, s.books[x.locate := s'.books[x.locate]], s.places)
    requires RemoveEffect(Scene(s.om, s.lm, s.books[x.locate], free), Scene(s'.om, s'.lm, s'.books[x.locate], free'),
             o, rc, l)
    requires BookOk(s'.om, s'.lm, x.locate, s'.books[x.locate])
    ensures Departing(s, free, s', free', o, x, rc, l) && rc in {1, 2}
  {
    hide BookOk, InBook, Coherent, Departed, OrdersKept, LevelsKept;
  }

  /** A slot in transit survives a removal untouched as long as it holds no object. */
  lemma EmptySlotsStayEmpty(s: Memory, free: seq<Ptr>, s': Memory, free': seq<Ptr>, o: Ptr, x: Order, rc: int, l: Ptr,
                            om2: seq<Cell<Order>>, p: Ptr)
    requires Departing(s, free, s', free', o, x, rc, l) && 0 <= p < |s.om| && !Live(s.om, p)
    requires |om2| == |s'.om| && om2 == s'.om[o := om2[o]]
    ensures p != o && |om2| == |s.om| && om2[p] == s.om[p]
  {
    hide BookOk, InBook, Coherent, Departed, LevelsKept;
    CoherentParts(s);
    BookAt(s, x.locate);
    if InBook(s.books[x.locate], p) {
      OrdersApart(s.om, s.lm, x.locate, s.books[x.locate], p);
    }
  }

  /** The price table of a side has exactly the prices at which the market has orders there. */
  lemma TablePrices(s: Memory, loc: u16, side: Side)
    requires Coherent(s) && loc in s.books
    ensures SidePrices(MarketOf(s), loc, side) == s.books[loc].On(side).table.Keys
  {
    hide BooksOk, InBook, IndexedWait, WaitingIndexed;
    CoherentParts(s);
    QueueKeys(s);
    var prices := s.books[loc].On(side).table.Keys;
    forall px | px in prices
      ensures px in SidePrices(MarketOf(s), loc, side)
    {
      assert Key(loc, side, px) in MarketOf(s).queues;
    }
  }

  lemma RoomMeansRoom(s: Memory, x: Order, limits: Limits, free: seq<Ptr>)
    requires Coherent(s) && x.locate in s.books
    requires RoomFor(limits, MarketOf(s), PlaceOf(x))
    requires |s.places| + |free| == limits.levels
    ensures HasRoom(s.books[x.locate], x, limits.side, free)
    ensures free == [] <==> |MarketOf(s).queues| >= limits.levels
  {
    hide Coherent, MarketOf;
    CoherentParts(s);
    MarketSizes(s);
    TablePrices(s, x.locate, x.side);
    PlaceIffTabled(s, x);
  }

  lemma UnusedIsUnindexed(s: Memory, o: Ptr)
    requires Unused(s, o)
    ensures forall id :: id in s.ids ==> s.ids[id] != o
  {
  }

  /** A constructed order that is not indexed can be added to the book of its instrument. */
  lemma ReadyToAdd(s: Memory, loc: u16, p: Ptr)
    requires Coherent(s) && loc in s.books && Live(s.om, p) && s.om[p].value.id !in s.ids
    ensures !InBook(s.books[loc], p) && BookOk(s.om, s.lm, loc, s.books[loc])
  {
    hide BookOk, InBook;
    NotIndexedIsUnused(s, p);
  }

  lemma AddedStep(s: Memory, free: seq<Ptr>, s': Memory, free': seq<Ptr>, o: Ptr, x: Order, rc: int, l: Ptr)
    requires Coherent(s) && x.id !in s.ids && Live(s.om, o) && s.om[o].value == x
    requires x.locate in s.books && x.locate in s'.books
    requires forall p :: p in free ==> !Live(s.lm, p)
    requires s' == Memory(s'.om, s'.lm, s.ids, s.books[x.locate := s'.books[x.locate]], s.places)
    requires AddEffect(Scene(s.om, s.lm, s.books[x.locate], free), Scene(s'.om, s'.lm, s'.books[x.locate], free'), o,
             rc, l)
    requires BookOk(s'.om, s'.lm, x.locate, s'.books[x.locate])
    ensures rc in {0, 1, 2} && (rc == 0 ==> s' == s && free' == free)
    ensures rc == 0 <==> PlaceOf(x) !in MarketOf(s).queues && free == []
    ensures rc != 0 ==> Arriving(s, free, s', free', o, x, rc, l)
  {
    hide BookOk, InBook, Coherent, Arrived, OrdersKept, LevelsKept;
    CoherentParts(s);
    PlaceIffTabled(s, x);
    assert rc == 0 ==> s.books[x.locate := s'.books[x.locate]] == s.books;
  }
}
