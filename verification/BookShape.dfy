/** One instrument's book as a value: the price-sorted list of levels on each side, the price table of each
    side and the queue of each level, with what must hold between them and the two pools. */
module BookShapes {
  import opened Types
  import opened IntrusiveLists
  import opened PriceLevels

  /** One side: best level, price table and level count as the code stores them; list is the walk along the
      next links from best. */
  datatype SideView = SideView(best: Ptr, table: map<u32, Ptr>, count: int, list: seq<Ptr>)

  datatype BookView = BookView(bid: SideView, ask: SideView, live: int, fifo: map<Ptr, seq<Ptr>>) {
    function On(s: Side): SideView {
      if s == Buy then bid else ask
    }

    function With(s: Side, v: SideView): BookView {
      if s == Buy then this.(bid := v) else this.(ask := v)
    }
  }

  const EMPTY_SIDE := SideView(NULL, map[], 0, [])
  const EMPTY_BOOK := BookView(EMPTY_SIDE, EMPTY_SIDE, 0, map[])

  /** a is a better price than b: higher for bids, lower for asks. */
  predicate Before(s: Side, a: u32, b: u32) {
    if s == Buy then a > b else a < b
  }

  /** The levels of one side, best price first and all prices different. */
  ghost predicate Ordered(lm: seq<Cell<Level>>, s: Side, list: seq<Ptr>) {
    && (forall i :: 0 <= i < |list| ==> Live(lm, list[i]) && lm[list[i]].value.side == s)
    && (forall i, j :: 0 <= i < j < |list| ==> Before(s, lm[list[i]].value.price, lm[list[j]].value.price))
  }

  /** The price table has exactly the levels of the list. */
  ghost predicate Mapped(lm: seq<Cell<Level>>, list: seq<Ptr>, table: map<u32, Ptr>) {
    && (forall i :: 0 <= i < |list| ==>
          Live(lm, list[i]) && lm[list[i]].value.price in table && table[lm[list[i]].value.price] == list[i])
    && (forall px :: px in table ==> table[px] in list && Live(lm, table[px]) && lm[table[px]].value.price == px)
  }

  ghost predicate SideOk(lm: seq<Cell<Level>>, s: Side, v: SideView) {
    && v.best == At(v.list, 0) && v.count == |v.list|
    && Linked(lm, v.list)
    && Ordered(lm, s, v.list)
    && Mapped(lm, v.list, v.table)
  }

  /** Level l of instrument loc has exactly the orders of q waiting, each at this instrument, side and price. */
  ghost predicate Waiting(om: seq<Cell<Order>>, lm: seq<Cell<Level>>, loc: u16, l: Ptr, q: seq<Ptr>) {
    && Live(lm, l)
    && Describes(om, lm[l].value, q)
    && forall k :: 0 <= k < |q| ==>
         Live(om, q[k]) && om[q[k]].value.locate == loc && om[q[k]].value.side == lm[l].value.side
         && om[q[k]].value.price == lm[l].value.price
  }

  function QueueOf(fifo: map<Ptr, seq<Ptr>>, l: Ptr): seq<Ptr> {
    if l in fifo then fifo[l] else []
  }

  /** The order in which for_each_order visits one side: level by level, and oldest first in a level. */
  function Walk(list: seq<Ptr>, fifo: map<Ptr, seq<Ptr>>): seq<Ptr> {
    if list == [] then [] else Walk(list[..|list| - 1], fifo) + QueueOf(fifo, list[|list| - 1])
  }

  /** Everything but "no level is empty", which is suspended inside an operation. */
  ghost predicate BookShape(om: seq<Cell<Order>>, lm: seq<Cell<Level>>, loc: u16, v: BookView) {
    && SideOk(lm, Buy, v.bid)
    && SideOk(lm, Sell, v.ask)
    && (forall l :: l in v.fifo <==> l in v.bid.list || l in v.ask.list)
    && (forall l :: l in v.fifo ==> Waiting(om, lm, loc, l, v.fifo[l]))
    && v.live == |Walk(v.bid.list, v.fifo)| + |Walk(v.ask.list, v.fifo)|
  }

  /** The invariant of a book between operations. */
  ghost predicate BookOk(om: seq<Cell<Order>>, lm: seq<Cell<Level>>, loc: u16, v: BookView) {
    BookShape(om, lm, loc, v) && forall l :: l in v.fifo ==> v.fifo[l] != []
  }

  /** Along a book's lists bid prices fall and ask prices rise, from the best level on. */
  lemma BidsFallAsksRise(om: seq<Cell<Order>>, lm: seq<Cell<Level>>, loc: u16, v: BookView)
    requires BookShape(om, lm, loc, v)
    ensures forall i :: 0 <= i < |v.bid.list| ==> Live(lm, v.bid.list[i])
    ensures forall i :: 0 <= i < |v.ask.list| ==> Live(lm, v.ask.list[i])
    ensures forall i, j :: 0 <= i < j < |v.bid.list| ==> lm[v.bid.list[i]].value.price > lm[v.bid.list[j]].value.price
    ensures forall i, j :: 0 <= i < j < |v.ask.list| ==> lm[v.ask.list[i]].value.price < lm[v.ask.list[j]].value.price
  {
    hide Linked, Waiting, Walk, Mapped;
  }

  lemma EmptyBookOk(om: seq<Cell<Order>>, lm: seq<Cell<Level>>, loc: u16)
    ensures BookOk(om, lm, loc, EMPTY_BOOK)
  {
  }

  // ---- frames: a book depends on its own slots only ----

  lemma SideFrame(lm: seq<Cell<Level>>, lm': seq<Cell<Level>>, s: Side, v: SideView)
    requires SideOk(lm, s, v) && |lm'| == |lm|
    requires forall p :: 0 <= p < |lm| && p in v.list ==> SameLevel(lm[p], lm'[p])
    ensures SideOk(lm', s, v)
  {
    hide Linked;
    assert Linked(lm', v.list) by {
      LinkedFrame(lm, lm', v.list);
    }
  }

  lemma WaitingFrame(om: seq<Cell<Order>>, om': seq<Cell<Order>>, lm: seq<Cell<Level>>, lm': seq<Cell<Level>>,
                     loc: u16, l: Ptr, q: seq<Ptr>)
    requires Waiting(om, lm, loc, l, q)
    requires |om'| == |om| && |lm'| == |lm| && lm'[l].Object? && lm'[l].value == lm[l].value
    requires forall k :: 0 <= k < |q| && 0 <= q[k] < |om| ==> om'[q[k]] == om[q[k]]
    ensures Waiting(om', lm', loc, l, q)
  {
    hide Linked, SumShares;
    SumFrame(om, om', q);
    assert Linked(om', q) by {
      LinkedFrame(om, om', q);
    }
  }

  lemma {:induction false} WalkFrame(list: seq<Ptr>, fifo: map<Ptr, seq<Ptr>>, fifo': map<Ptr, seq<Ptr>>)
    requires forall l :: l in list ==> QueueOf(fifo', l) == QueueOf(fifo, l)
    ensures Walk(list, fifo') == Walk(list, fifo)
  {
    if list != [] {
      WalkFrame(list[..|list| - 1], fifo, fifo');
    }
  }

  /** Replacing one queue of a side changes the number of orders by the difference in length. */
  lemma {:induction false} WalkUpdate(list: seq<Ptr>, fifo: map<Ptr, seq<Ptr>>, l: Ptr, r: seq<Ptr>)
    requires Distinct(list)
    ensures |Walk(list, fifo[l := r])| == |Walk(list, fifo)| + (if l in list then |r| - |QueueOf(fifo, l)| else 0)
  {
    if list != [] {
      var rest := list[..|list| - 1];
      WalkUpdate(rest, fifo, l, r);
      assert list == rest + [list[|list| - 1]];
    }
  }

  /** A level without orders can come and go without changing the walk. */
  lemma {:induction false} WalkSkipsEmpty(list: seq<Ptr>, fifo: map<Ptr, seq<Ptr>>, k: nat)
    requires k < |list| && QueueOf(fifo, list[k]) == []
    ensures Walk(list[..k] + list[k + 1..], fifo) == Walk(list, fifo)
  {
    var rest := list[..|list| - 1];
    var r := list[..k] + list[k + 1..];
    if k == |list| - 1 {
      assert r == rest;
    } else {
      WalkSkipsEmpty(rest, fifo, k);
      assert r[..|r| - 1] == rest[..k] + rest[k + 1..];
    }
  }

  // ---- what a queue member says about its level ----

  /** A level is the one its side's table returns for its price. */
  lemma LevelOf(om: seq<Cell<Order>>, lm: seq<Cell<Level>>, loc: u16, v: BookView, l: Ptr)
    requires BookShape(om, lm, loc, v) && l in v.fifo
    ensures Live(lm, l)
    ensures var side := v.On(lm[l].value.side);
            l in side.list && lm[l].value.price in side.table && side.table[lm[l].value.price] == l
  {
    hide Linked;
  }

  lemma LevelAt(om: seq<Cell<Order>>, lm: seq<Cell<Level>>, loc: u16, v: BookView, s: Side, px: u32)
    requires BookShape(om, lm, loc, v) && px in v.On(s).table
    ensures var l := v.On(s).table[px];
            l in v.fifo && Live(lm, l) && lm[l].value.price == px && lm[l].value.side == s && l in v.On(s).list
  {
    hide Linked;
  }

  /** An order waits in the one level that belongs to its side and price. */
  lemma MemberOf(om: seq<Cell<Order>>, lm: seq<Cell<Level>>, loc: u16, v: BookView, l: Ptr, p: Ptr)
    requires BookShape(om, lm, loc, v) && l in v.fifo && p in v.fifo[l]
    ensures Live(om, p) && om[p].value.locate == loc
    ensures var side := v.On(om[p].value.side);
            om[p].value.price in side.table && side.table[om[p].value.price] == l
  {
    LevelOf(om, lm, loc, v, l);
  }

  lemma QueuesAreDisjoint(om: seq<Cell<Order>>, lm: seq<Cell<Level>>, loc: u16, v: BookView, l: Ptr, l': Ptr, p: Ptr)
    requires BookShape(om, lm, loc, v) && l in v.fifo && l' in v.fifo
    requires p in v.fifo[l] && p in v.fifo[l']
    ensures l == l'
  {
    MemberOf(om, lm, loc, v, l, p);
    MemberOf(om, lm, loc, v, l', p);
  }

  // ---- the three changes of shape ----

  /** The queue of one level is replaced, together with the aggregates of that level. */
  lemma Requeued(om: seq<Cell<Order>>, om': seq<Cell<Order>>, lm: seq<Cell<Level>>, lm': seq<Cell<Level>>,
                 loc: u16, v: BookView, l: Ptr, r: seq<Ptr>, o: Ptr)
    requires BookShape(om, lm, loc, v) && l in v.fifo
    requires |om'| == |om| && |lm'| == |lm| && 0 <= l < |lm| && lm' == lm[l := lm'[l]] && SameLevel(lm[l], lm'[l])
    requires Waiting(om', lm', loc, l, r)
    requires forall p :: 0 <= p < |om| && p != o && p !in v.fifo[l] ==> om'[p] == om[p]
    requires o in v.fifo[l] || (forall l' :: l' in v.fifo ==> o !in v.fifo[l'])
    ensures BookShape(om', lm', loc, v.(fifo := v.fifo[l := r], live := v.live + |r| - |v.fifo[l]|))
  {
    hide Linked, Waiting, Walk, SideOk, SameLevel;
    SidesDisjoint(om, lm, loc, v, l);
    WalkGrowth(v, l, r);
    RequeuedOthers(om, om', lm, lm', loc, v, l, o);
    SideUpdate(lm, lm', Buy, v.bid, l);
    SideUpdate(lm, lm', Sell, v.ask, l);
  }

  lemma SideUpdate(lm: seq<Cell<Level>>, lm': seq<Cell<Level>>, s: Side, v: SideView, l: Ptr)
    requires SideOk(lm, s, v) && |lm'| == |lm| && 0 <= l < |lm| && lm' == lm[l := lm'[l]]
    requires SameLevel(lm[l], lm'[l])
    ensures SideOk(lm', s, v)
  {
    forall p | 0 <= p < |lm| && p in v.list
      ensures SameLevel(lm[p], lm'[p])
    {
      var i :| 0 <= i < |v.list| && v.list[i] == p;
      assert Live(lm, v.list[i]);
    }
    SideFrame(lm, lm', s, v);
  }

  lemma WalkGrowth(v: BookView, l: Ptr, r: seq<Ptr>)
    requires Distinct(v.bid.list) && Distinct(v.ask.list) && l in v.fifo
    requires (l in v.bid.list && l !in v.ask.list) || (l in v.ask.list && l !in v.bid.list)
    ensures |Walk(v.bid.list, v.fifo[l := r])| + |Walk(v.ask.list, v.fifo[l := r])|
         == |Walk(v.bid.list, v.fifo)| + |Walk(v.ask.list, v.fifo)| + |r| - |v.fifo[l]|
  {
    WalkUpdate(v.bid.list, v.fifo, l, r);
    WalkUpdate(v.ask.list, v.fifo, l, r);
  }

  lemma SidesDisjoint(om: seq<Cell<Order>>, lm: seq<Cell<Level>>, loc: u16, v: BookView, l: Ptr)
    requires BookShape(om, lm, loc, v)
    ensures !(l in v.bid.list && l in v.ask.list)
    ensures Distinct(v.bid.list) && Distinct(v.ask.list)
  {
    SideMembers(om, lm, loc, v);
  }

  lemma RequeuedOthers(om: seq<Cell<Order>>, om': seq<Cell<Order>>, lm: seq<Cell<Level>>, lm': seq<Cell<Level>>,
                       loc: u16, v: BookView, l: Ptr, o: Ptr)
    requires BookShape(om, lm, loc, v) && l in v.fifo
    requires |om'| == |om| && 0 <= l < |lm| && |lm'| == |lm| && lm' == lm[l := lm'[l]]
    requires forall p :: 0 <= p < |om| && p != o && p !in v.fifo[l] ==> om'[p] == om[p]
    requires o in v.fifo[l] || (forall l' :: l' in v.fifo ==> o !in v.fifo[l'])
    ensures forall l' :: l' in v.fifo && l' != l ==> Waiting(om', lm', loc, l', v.fifo[l'])
  {
    hide Linked, SumShares, SideOk, Walk;
    forall l' | l' in v.fifo && l' != l
      ensures Waiting(om', lm', loc, l', v.fifo[l'])
    {
      assert Waiting(om, lm, loc, l', v.fifo[l']);
      var q := v.fifo[l'];
      forall k | 0 <= k < |q| && 0 <= q[k] < |om|
        ensures om'[q[k]] == om[q[k]]
      {
        if q[k] in v.fifo[l] {
          QueuesAreDisjoint(om, lm, loc, v, l, l', q[k]);
        }
      }
      WaitingFrame(om, om', lm, lm', loc, l', q);
    }
  }

  // ---- a level appears ----

  /** Where a new price goes: after every better price and before every worse one. */
  ghost predicate SortsAt(lm: seq<Cell<Level>>, s: Side, list: seq<Ptr>, px: u32, k: nat) {
    && k <= |list|
    && (forall i :: 0 <= i < |list| ==> Live(lm, list[i]))
    && (forall i :: 0 <= i < k ==> Before(s, lm[list[i]].value.price, px))
    && (forall i :: k <= i < |list| ==> Before(s, px, lm[list[i]].value.price))
  }

  /** A bid goes behind exactly the higher bids and an ask behind exactly the lower asks. */
  lemma SortsNumerically(lm: seq<Cell<Level>>, s: Side, list: seq<Ptr>, px: u32, k: nat)
    requires SortsAt(lm, s, list, px, k)
    ensures k <= |list| && forall i :: 0 <= i < |list| ==> Live(lm, list[i])
    ensures s == Buy ==> forall i :: 0 <= i < |list| ==> (i < k <==> lm[list[i]].value.price > px)
    ensures s == Sell ==> forall i :: 0 <= i < |list| ==> (i < k <==> lm[list[i]].value.price < px)
  {
  }

  function InsertedAt(list: seq<Ptr>, k: nat, l: Ptr): seq<Ptr>
    requires k <= |list|
  {
    list[..k] + [l] + list[k..]
  }

  function WithLevel(v: BookView, s: Side, px: u32, k: nat, l: Ptr): BookView
    requires k <= |v.On(s).list|
  {
    var side := v.On(s);
    var list := InsertedAt(side.list, k, l);
    v.With(s, SideView(At(list, 0), side.table[px := l], side.count + 1, list)).(fifo := v.fifo[l := []])
  }

  /** WithLevel in two steps, as the code does it: first the list, then the price table. */
  function Sorted(v: BookView, s: Side, k: nat, l: Ptr): BookView
    requires k <= |v.On(s).list|
  {
    var list := InsertedAt(v.On(s).list, k, l);
    v.With(s, v.On(s).(list := list, best := At(list, 0)))
  }

  function Tabled(v: BookView, s: Side, px: u32, l: Ptr): BookView {
    v.With(s, v.On(s).(table := v.On(s).table[px := l], count := v.On(s).count + 1))
  }

  lemma SortedThenTabled(v: BookView, s: Side, px: u32, k: nat, l: Ptr)
    requires k <= |v.On(s).list|
    ensures Sorted(v, s, k, l).On(s).table == v.On(s).table
    ensures Tabled(Sorted(v, s, k, l), s, px, l).(fifo := v.fifo[l := []]) == WithLevel(v, s, px, k, l)
    ensures Tabled(Sorted(v, s, k, l), s, px, l).fifo == v.fifo
  {
  }

  lemma OrderedInsert(lm: seq<Cell<Level>>, lm': seq<Cell<Level>>, s: Side, list: seq<Ptr>, px: u32, k: nat, l: Ptr)
    requires Ordered(lm, s, list) && SortsAt(lm, s, list, px, k)
    requires |lm'| == |lm|
    requires forall i :: 0 <= i < |list| ==> Live(lm', list[i]) && lm'[list[i]].value == lm[list[i]].value
    requires Live(lm', l) && lm'[l].value.price == px && lm'[l].value.side == s
    ensures Ordered(lm', s, InsertedAt(list, k, l))
  {
    var r := InsertedAt(list, k, l);
    forall i | 0 <= i < |r|
      ensures Live(lm', r[i]) && lm'[r[i]].value.side == s
    {
      if i != k { assert r[i] == list[if i < k then i else i - 1]; }
    }
    forall i, j | 0 <= i < j < |r|
      ensures Before(s, lm'[r[i]].value.price, lm'[r[j]].value.price)
    {
      if i != k { assert r[i] == list[if i < k then i else i - 1]; }
      if j != k { assert r[j] == list[if j < k then j else j - 1]; }
    }
  }

  lemma MappedInsert(lm: seq<Cell<Level>>, lm': seq<Cell<Level>>, list: seq<Ptr>, table: map<u32, Ptr>,
                     px: u32, k: nat, l: Ptr)
    requires Mapped(lm, list, table) && px !in table && k <= |list| && l !in list
    requires |lm'| == |lm|
    requires forall i :: 0 <= i < |list| ==> Live(lm', list[i]) && lm'[list[i]].value == lm[list[i]].value
    requires Live(lm', l) && lm'[l].value.price == px
    ensures Mapped(lm', InsertedAt(list, k, l), table[px := l])
  {
    var r := InsertedAt(list, k, l);
    assert r[k] == l;
    forall i | 0 <= i < |r|
      ensures Live(lm', r[i]) && lm'[r[i]].value.price in table[px := l]
              && table[px := l][lm'[r[i]].value.price] == r[i]
    {
      if i != k { assert r[i] == list[if i < k then i else i - 1]; }
    }
    var table' := table[px := l];
    forall x | x in table'
      ensures table'[x] in r && Live(lm', table'[x]) && lm'[table'[x]].value.price == x
    {
      if x != px {
        var i :| 0 <= i < |list| && list[i] == table[x];
        assert r[if i < k then i else i + 1] == table[x];
      }
    }
  }

  /** The side with the new level spliced in. */
  lemma SideInsert(lm: seq<Cell<Level>>, lm1: seq<Cell<Level>>, s: Side, v: SideView, px: u32, k: nat, l: Ptr)
    requires SideOk(lm, s, v) && px !in v.table && SortsAt(lm, s, v.list, px, k)
    requires Live(lm1, l) && lm1[l].value.price == px && lm1[l].value.side == s
    requires l !in v.list && |lm1| == |lm| && lm1 == lm[l := lm1[l]]
    ensures At(v.list, k - 1) != NULL ==> Live(lm1, At(v.list, k - 1))
    ensures At(v.list, k) != NULL ==> Live(lm1, At(v.list, k))
    ensures var lm' := Spliced(lm1, At(v.list, k - 1), l, At(v.list, k));
            var list := InsertedAt(v.list, k, l);
            Relinked(lm1, lm', list) && SideOk(lm', s, SideView(At(list, 0), v.table[px := l], v.count + 1, list))
  {
    hide Linked, Spliced, Ordered, Mapped;
    assert forall i :: 0 <= i < |v.list| ==> Live(lm, v.list[i]) && v.list[i] != l;
    LinkedFrame(lm, lm1, v.list);
    InsertKeepsLinked(lm1, v.list, k, l);
    var lm' := Spliced(lm1, At(v.list, k - 1), l, At(v.list, k));
    RelinkedValues(lm1, lm', InsertedAt(v.list, k, l));
    OrderedInsert(lm, lm', s, v.list, px, k, l);
    MappedInsert(lm, lm', v.list, v.table, px, k, l);
  }

  lemma RelinkedValues<T>(mem: seq<Cell<T>>, mem': seq<Cell<T>>, q: seq<Ptr>)
    requires Relinked(mem, mem', q)
    ensures |mem'| == |mem|
    ensures forall p :: Live(mem, p) ==> Live(mem', p) && mem'[p].value == mem[p].value
    ensures forall p :: Live(mem, p) && p !in q ==> mem'[p] == mem[p]
    ensures forall p :: 0 <= p < |mem| && p !in q ==> mem'[p] == mem[p]
  {
  }

  lemma LevelInserted(om: seq<Cell<Order>>, lm: seq<Cell<Level>>, lm1: seq<Cell<Level>>, loc: u16, v: BookView,
                      s: Side, px: u32, k: nat, l: Ptr)
    requires BookShape(om, lm, loc, v) && px !in v.On(s).table && SortsAt(lm, s, v.On(s).list, px, k)
    requires Live(lm1, l) && lm1[l].value == Level(px, 0, NULL, NULL, 0, s)
    requires l !in v.fifo && |lm1| == |lm| && lm1 == lm[l := lm1[l]]
    ensures At(v.On(s).list, k - 1) != NULL ==> Live(lm1, At(v.On(s).list, k - 1))
    ensures At(v.On(s).list, k) != NULL ==> Live(lm1, At(v.On(s).list, k))
    ensures var lm' := Spliced(lm1, At(v.On(s).list, k - 1), l, At(v.On(s).list, k));
            && Relinked(lm1, lm', InsertedAt(v.On(s).list, k, l))
            && BookShape(om, lm', loc, WithLevel(v, s, px, k, l))
  {
    hide Linked, Spliced, SideOk, Waiting, Walk, Relinked, SortsAt;
    var side := v.On(s);
    SortsInside(lm, s, side.list, px, k);
    SideInsert(lm, lm1, s, side, px, k, l);
    var lm' := Spliced(lm1, At(side.list, k - 1), l, At(side.list, k));
    var list := InsertedAt(side.list, k, l);
    RelinkedValues(lm1, lm', list);
    OtherSide(om, lm, lm1, lm', loc, v, s, list, l);
    WaitingElsewhere(om, lm, lm1, lm', loc, v, l);
    NothingWaits(om, lm', loc, l);
    InsertedWalk(v, s, px, k, l);
    InsertedMembers(side.list, k, l);
  }

  lemma SortsInside(lm: seq<Cell<Level>>, s: Side, list: seq<Ptr>, px: u32, k: nat)
    requires SortsAt(lm, s, list, px, k)
    ensures k <= |list|
  {
  }

  lemma InsertedWalk(v: BookView, s: Side, px: u32, k: nat, l: Ptr)
    requires k <= |v.On(s).list| && l !in v.bid.list && l !in v.ask.list
    ensures var v' := WithLevel(v, s, px, k, l);
            && Walk(v'.bid.list, v'.fifo) == Walk(v.bid.list, v.fifo)
            && Walk(v'.ask.list, v'.fifo) == Walk(v.ask.list, v.fifo)
  {
    var list, fifo' := InsertedAt(v.On(s).list, k, l), v.fifo[l := []];
    WalkFrame(v.bid.list, v.fifo, fifo');
    WalkFrame(v.ask.list, v.fifo, fifo');
    assert list[k] == l && list[..k] + list[k + 1..] == v.On(s).list;
    WalkSkipsEmpty(list, fifo', k);
  }

  lemma InsertedMembers(list: seq<Ptr>, k: nat, l: Ptr)
    requires k <= |list|
    ensures forall p :: p in InsertedAt(list, k, l) <==> p in list || p == l
  {
    forall p | p in list
      ensures p in InsertedAt(list, k, l)
    {
      var i :| 0 <= i < |list| && list[i] == p;
      assert InsertedAt(list, k, l)[if i < k then i else i + 1] == p;
    }
    assert InsertedAt(list, k, l)[k] == l;
  }

  lemma NothingWaits(om: seq<Cell<Order>>, lm: seq<Cell<Level>>, loc: u16, l: Ptr)
    requires Live(lm, l) && lm[l].value.head == NULL && lm[l].value.tail == NULL
    requires lm[l].value.count == 0 && lm[l].value.total == 0
    ensures Waiting(om, lm, loc, l, [])
  {
  }

  function Opposite(s: Side): Side {
    if s == Buy then Sell else Buy
  }

  lemma OtherSide(om: seq<Cell<Order>>, lm: seq<Cell<Level>>, lm1: seq<Cell<Level>>, lm': seq<Cell<Level>>,
                  loc: u16, v: BookView, s: Side, list: seq<Ptr>, l: Ptr)
    requires BookShape(om, lm, loc, v) && l !in v.On(Opposite(s)).list
    requires |lm1| == |lm| && 0 <= l < |lm| && lm1 == lm[l := lm1[l]] && Relinked(lm1, lm', list)
    requires forall p :: p in list ==> p in v.On(s).list || p == l
    ensures SideOk(lm', Opposite(s), v.On(Opposite(s)))
  {
    hide Linked, Ordered, Mapped, Walk, Waiting;
    var other := v.On(Opposite(s)).list;
    SideMembers(om, lm, loc, v);
    RelinkedValues(lm1, lm', list);
    forall p | 0 <= p < |lm| && p in other
      ensures SameLevel(lm[p], lm'[p])
    {
      assert Live(lm, p) && p !in v.On(s).list;
    }
    SideFrameOf(om, lm, lm', loc, v, Opposite(s));
  }

  /** Every level of a list is live and of that side, so the two lists share nothing. */
  lemma SideMembers(om: seq<Cell<Order>>, lm: seq<Cell<Level>>, loc: u16, v: BookView)
    requires BookShape(om, lm, loc, v)
    ensures forall p :: p in v.bid.list ==> Live(lm, p) && lm[p].value.side == Buy
    ensures forall p :: p in v.ask.list ==> Live(lm, p) && lm[p].value.side == Sell
    ensures Distinct(v.bid.list) && Distinct(v.ask.list)
  {
    assert SideOk(lm, Buy, v.On(Buy)) && SideOk(lm, Sell, v.On(Sell));
  }

  lemma SideFrameOf(om: seq<Cell<Order>>, lm: seq<Cell<Level>>, lm': seq<Cell<Level>>, loc: u16, v: BookView, s: Side)
    requires BookShape(om, lm, loc, v) && |lm'| == |lm|
    requires forall p :: 0 <= p < |lm| && p in v.On(s).list ==> SameLevel(lm[p], lm'[p])
    ensures SideOk(lm', s, v.On(s))
  {
    SideFrame(lm, lm', s, v.On(s));
  }

  lemma WaitingElsewhere(om: seq<Cell<Order>>, lm: seq<Cell<Level>>, lm1: seq<Cell<Level>>, lm': seq<Cell<Level>>,
                         loc: u16, v: BookView, l: Ptr)
    requires BookShape(om, lm, loc, v)
    requires |lm1| == |lm| && |lm'| == |lm| && 0 <= l < |lm| && lm1 == lm[l := lm1[l]]
    requires forall p :: Live(lm1, p) && p != l ==> Live(lm', p) && lm'[p].value == lm1[p].value
    ensures forall l' :: l' in v.fifo && l' != l ==> Waiting(om, lm', loc, l', v.fifo[l'])
  {
    hide Linked, SumShares, SideOk, Walk;
    forall l' | l' in v.fifo && l' != l
      ensures Waiting(om, lm', loc, l', v.fifo[l'])
    {
      assert Waiting(om, lm, loc, l', v.fifo[l']);
      WaitingFrame(om, om, lm, lm', loc, l', v.fifo[l']);
    }
  }

  // ---- a level disappears ----

  function RemovedAt(list: seq<Ptr>, k: nat): seq<Ptr>
    requires k < |list|
  {
    list[..k] + list[k + 1..]
  }

  function WithoutLevel(v: BookView, s: Side, px: u32, k: nat): BookView
    requires k < |v.On(s).list|
  {
    var side := v.On(s);
    var list := RemovedAt(side.list, k);
    v.With(s, SideView(At(list, 0), side.table - {px}, side.count - 1, list)).(fifo := v.fifo - {side.list[k]})
  }

  /** WithoutLevel in two steps, as the code does it: first the list, then the price table. */
  function Unlisted(v: BookView, s: Side, k: nat): BookView
    requires k < |v.On(s).list|
  {
    var list := RemovedAt(v.On(s).list, k);
    v.With(s, v.On(s).(list := list, best := At(list, 0)))
  }

  function Erased(v: BookView, s: Side, px: u32): BookView {
    v.With(s, v.On(s).(table := v.On(s).table - {px}, count := v.On(s).count - 1))
  }

  lemma UnlistedThenErased(v: BookView, s: Side, px: u32, k: nat)
    requires k < |v.On(s).list|
    ensures Unlisted(v, s, k).On(s).table == v.On(s).table
    ensures Erased(Unlisted(v, s, k), s, px).(fifo := v.fifo - {v.On(s).list[k]}) == WithoutLevel(v, s, px, k)
    ensures var v' := WithoutLevel(v, s, px, k);
            && v'.On(s).table == v.On(s).table - {px} && v'.On(Opposite(s)).table == v.On(Opposite(s)).table
            && v'.live == v.live && v'.fifo == v.fifo - {v.On(s).list[k]}
  {
  }

  lemma RemovedMembers(list: seq<Ptr>, k: nat)
    requires Distinct(list) && k < |list|
    ensures forall p :: p in RemovedAt(list, k) <==> p in list && p != list[k]
  {
    forall p | p in list && p != list[k]
      ensures p in RemovedAt(list, k)
    {
      var i :| 0 <= i < |list| && list[i] == p;
      assert RemovedAt(list, k)[if i < k then i else i - 1] == p;
    }
  }

  lemma OrderedRemove(lm: seq<Cell<Level>>, lm': seq<Cell<Level>>, s: Side, list: seq<Ptr>, k: nat)
    requires Ordered(lm, s, list) && k < |list| && |lm'| == |lm|
    requires forall i :: 0 <= i < |list| && i != k ==> Live(lm', list[i]) && lm'[list[i]].value == lm[list[i]].value
    ensures Ordered(lm', s, RemovedAt(list, k))
  {
    var r := RemovedAt(list, k);
    assert forall i :: 0 <= i < |r| ==> r[i] == list[if i < k then i else i + 1];
  }

  lemma MappedRemove(lm: seq<Cell<Level>>, lm': seq<Cell<Level>>, list: seq<Ptr>, table: map<u32, Ptr>, px: u32, k: nat)
    requires Mapped(lm, list, table) && Distinct(list) && k < |list| && |lm'| == |lm|
    requires Live(lm, list[k]) && lm[list[k]].value.price == px
    requires forall i :: 0 <= i < |list| && i != k ==> Live(lm', list[i]) && lm'[list[i]].value == lm[list[i]].value
    ensures Mapped(lm', RemovedAt(list, k), table - {px})
  {
    var r := RemovedAt(list, k);
    assert forall i :: 0 <= i < |r| ==> r[i] == list[if i < k then i else i + 1];
    RemovedMembers(list, k);
    var table' := table - {px};
    forall x | x in table'
      ensures table'[x] in r && Live(lm', table'[x]) && lm'[table'[x]].value.price == x
    {
      var i :| 0 <= i < |list| && list[i] == table[x];
      assert i != k;
    }
  }

  /** The side with the level at position k unlinked and its slot released. */
  lemma SideRemove(lm: seq<Cell<Level>>, lm': seq<Cell<Level>>, s: Side, v: SideView, px: u32, k: nat)
    requires SideOk(lm, s, v) && k < |v.list| && Live(lm, v.list[k]) && lm[v.list[k]].value.price == px
    requires lm[v.list[k]].prev != NULL ==> Live(lm, lm[v.list[k]].prev)
    requires lm[v.list[k]].next != NULL ==> Live(lm, lm[v.list[k]].next)
    requires |lm'| == |lm| && lm' == Unlinked(lm, v.list[k])[v.list[k] := lm'[v.list[k]]]
    ensures var list := RemovedAt(v.list, k);
            SideOk(lm', s, SideView(At(list, 0), v.table - {px}, v.count - 1, list))
    ensures forall p :: Live(lm, p) && p != v.list[k] ==> Live(lm', p) && lm'[p].value == lm[p].value
    ensures forall p :: 0 <= p < |lm| && p !in v.list ==> lm'[p] == lm[p]
  {
    hide Linked, Unlinked, Ordered, Mapped, Relinked;
    LinkedDistinct(lm, v.list);
    RemovedRest(lm, lm', v.list, k);
    OrderedLive(lm, s, v.list);
    assert forall i :: 0 <= i < |v.list| && i != k ==>
             v.list[i] != v.list[k] && Live(lm', v.list[i]) && lm'[v.list[i]].value == lm[v.list[i]].value;
    OrderedRemove(lm, lm', s, v.list, k);
    MappedRemove(lm, lm', v.list, v.table, px, k);
  }

  /** The list without its member at k, whose slot may hold anything by now. */
  lemma RemovedRest(lm: seq<Cell<Level>>, lm': seq<Cell<Level>>, list: seq<Ptr>, k: nat)
    requires Linked(lm, list) && k < |list| && Live(lm, list[k])
    requires lm[list[k]].prev != NULL ==> Live(lm, lm[list[k]].prev)
    requires lm[list[k]].next != NULL ==> Live(lm, lm[list[k]].next)
    requires |lm'| == |lm| && lm' == Unlinked(lm, list[k])[list[k] := lm'[list[k]]]
    ensures Linked(lm', RemovedAt(list, k))
    ensures forall p :: Live(lm, p) && p != list[k] ==> Live(lm', p) && lm'[p].value == lm[p].value
    ensures forall p :: 0 <= p < |lm| && p !in list ==> lm'[p] == lm[p]
  {
    hide Linked, Unlinked, Relinked;
    LinkedDistinct(lm, list);
    UnlinkKeepsLinked(lm, list, k);
    var lm1 := Unlinked(lm, list[k]);
    RelinkedValues(lm, lm1, list);
    RemovedMembers(list, k);
    LinkedFrame(lm1, lm', RemovedAt(list, k));
  }

  lemma OrderedLive(lm: seq<Cell<Level>>, s: Side, list: seq<Ptr>)
    requires Ordered(lm, s, list)
    ensures forall i :: 0 <= i < |list| ==> Live(lm, list[i])
  {
  }

  lemma LevelRemoved(om: seq<Cell<Order>>, lm: seq<Cell<Level>>, lm': seq<Cell<Level>>, loc: u16, v: BookView,
                     s: Side, px: u32, k: nat)
    requires BookShape(om, lm, loc, v) && k < |v.On(s).list|
    requires var l := v.On(s).list[k];
             && Live(lm, l) && lm[l].value.price == px && QueueOf(v.fifo, l) == []
             && (lm[l].prev != NULL ==> Live(lm, lm[l].prev)) && (lm[l].next != NULL ==> Live(lm, lm[l].next))
             && |lm'| == |lm| && lm' == Unlinked(lm, l)[l := lm'[l]]
    ensures BookShape(om, lm', loc, WithoutLevel(v, s, px, k))
    ensures forall p :: 0 <= p < |lm| && p !in v.On(s).list ==> lm'[p] == lm[p]
  {
    hide Linked, Unlinked, SideOk, Waiting, Walk;
    var side := v.On(s);
    var l := side.list[k];
    var list := RemovedAt(side.list, k);
    SideRemove(lm, lm', s, side, px, k);
    SideMembers(om, lm, loc, v);
    RemovedMembers(side.list, k);
    assert l !in v.On(Opposite(s)).list;
    assert forall p :: p in v.On(Opposite(s)).list ==> p !in side.list;
    SideFrameOf(om, lm, lm', loc, v, Opposite(s));
    WaitingElsewhere(om, lm, lm, lm', loc, v, l);
    RemovedWalk(v, s, px, k);
  }

  lemma RemovedWalk(v: BookView, s: Side, px: u32, k: nat)
    requires k < |v.On(s).list| && QueueOf(v.fifo, v.On(s).list[k]) == []
    ensures var v' := WithoutLevel(v, s, px, k);
            && Walk(v'.bid.list, v'.fifo) == Walk(v.bid.list, v.fifo)
            && Walk(v'.ask.list, v'.fifo) == Walk(v.ask.list, v.fifo)
  {
    var list, fifo' := v.On(s).list, v.fifo - {v.On(s).list[k]};
    WalkFrame(v.bid.list, v.fifo, fifo');
    WalkFrame(v.ask.list, v.fifo, fifo');
    WalkSkipsEmpty(list, fifo', k);
  }
}
