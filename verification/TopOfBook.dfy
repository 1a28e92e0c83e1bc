/** What a book's quotes say about the market: prices with live orders, and all the shares waiting at one price. */
module TopOfBooks {
  import opened Types
  import opened PriceLevels
  import opened BookShapes
  import opened OrderBooks
  import opened Markets
  import opened EngineShapes

  /** The shares of some orders together. */
  function SharesOf(m: Market, ids: seq<OrderId>): nat {
    if ids == [] then 0
    else
      var last := ids[|ids| - 1];
      SharesOf(m, ids[..|ids| - 1]) + if last in m.orders then m.orders[last].shares else 0
  }

  lemma {:induction false} SumIsShares(s: Memory, q: seq<Ptr>)
    requires IndexedWait(s)
    requires forall i :: 0 <= i < |q| ==>
               Live(s.om, q[i]) && IdAt(s.om, q[i]) in s.ids && s.ids[IdAt(s.om, q[i])] == q[i]
    ensures SumShares(s.om, q) == SharesOf(MarketOf(s), IdsOf(s.om, q))
  {
    hide IndexedWait;
    if q != [] {
      SumIsShares(s, q[..|q| - 1]);
      assert IdsOf(s.om, q)[..|q| - 1] == IdsOf(s.om, q[..|q| - 1]);
    }
  }

  lemma QueueIndexed(s: Memory, loc: u16, l: Ptr)
    requires Coherent(s) && loc in s.books && l in s.books[loc].fifo
    ensures var q := s.books[loc].fifo[l];
            forall i :: 0 <= i < |q| ==>
              Live(s.om, q[i]) && IdAt(s.om, q[i]) in s.ids && s.ids[IdAt(s.om, q[i])] == q[i]
  {
    hide BookShape;
    var v := s.books[loc];
    var q := v.fifo[l];
    assert BookOk(s.om, s.lm, loc, v);
    QueueDistinct(s.om, s.lm, loc, v, l);
    forall i | 0 <= i < |q|
      ensures IdAt(s.om, q[i]) in s.ids && s.ids[IdAt(s.om, q[i])] == q[i]
    {
      assert InBook(v, q[i]);
    }
  }

  /** The prices in a side's table are those of its market queues, with the same shares waiting. */
  lemma QuoteIsQueue(s: Memory, loc: u16, side: Side, px: u32)
    requires Coherent(s) && loc in s.books
    ensures IndexedWait(s)
    ensures var v, m, k := s.books[loc], MarketOf(s), Key(loc, side, px);
            && (px in v.On(side).table <==> k in m.queues)
            && (k in m.queues ==>
                  SumShares(s.om, QueueOf(v.fifo, v.On(side).table[px])) == SharesOf(m, m.queues[k]))
  {
    hide BookShape, SumShares, SharesOf;
    var v, k := s.books[loc], Key(loc, side, px);
    if px in v.On(side).table {
      var l := v.On(side).table[px];
      assert k in s.places && s.places[k] == l;
      assert BookOk(s.om, s.lm, loc, v);
      LevelAt(s.om, s.lm, loc, v, side, px);
      QueueIndexed(s, loc, l);
      SumIsShares(s, v.fifo[l]);
    }
  }

  /** A live order of the instrument stands on a side at a price. */
  predicate Stands(m: Market, id: OrderId, loc: u16, side: Side, px: u32) {
    id in m.orders && m.orders[id].loc == loc && m.orders[id].side == side && m.orders[id].price == px
  }

  lemma QueueStands(m: Market, loc: u16, side: Side, px: u32)
    requires Consistent(m)
    ensures Key(loc, side, px) in m.queues <==> exists id :: Stands(m, id, loc, side, px)
  {
    var k := Key(loc, side, px);
    if k in m.queues {
      var id := m.queues[k][0];
      assert id in m.queues[k] && m.orders[id].Place() == k;
      assert Stands(m, id, loc, side, px);
    }
    forall id | Stands(m, id, loc, side, px)
      ensures k in m.queues
    {
      assert m.orders[id].Place() == k;
    }
  }

  /** A price is quoted exactly when some order stands there. */
  lemma QuotesAreOrders(s: Memory, loc: u16, side: Side, px: u32)
    requires Coherent(s) && loc in s.books && Consistent(MarketOf(s))
    ensures IndexedWait(s)
    ensures px in s.books[loc].On(side).table <==> exists id :: Stands(MarketOf(s), id, loc, side, px)
  {
    hide Coherent, MarketOf, Consistent, Stands, IndexedWait;
    QuoteIsQueue(s, loc, side, px);
    QueueStands(MarketOf(s), loc, side, px);
  }

  /** The highest price in a bid table is that of the highest live buy order of the instrument. */
  lemma BidOfMarket(s: Memory, loc: u16, px: u32)
    requires Coherent(s) && loc in s.books && Consistent(MarketOf(s))
    requires px in s.books[loc].bid.table && forall other :: other in s.books[loc].bid.table ==> other <= px
    ensures IndexedWait(s)
    ensures exists id :: Stands(MarketOf(s), id, loc, Buy, px)
    ensures forall id, other: u32 :: Stands(MarketOf(s), id, loc, Buy, other) ==> other <= px
  {
    hide Coherent, MarketOf, Consistent, Stands, IndexedWait;
    QuotesAreOrders(s, loc, Buy, px);
    forall id, other: u32 | Stands(MarketOf(s), id, loc, Buy, other)
      ensures other <= px
    {
      QuotesAreOrders(s, loc, Buy, other);
    }
  }

  /** And the lowest price in an ask table that of the lowest live sell order. */
  lemma AskOfMarket(s: Memory, loc: u16, px: u32)
    requires Coherent(s) && loc in s.books && Consistent(MarketOf(s))
    requires px in s.books[loc].ask.table && forall other :: other in s.books[loc].ask.table ==> px <= other
    ensures IndexedWait(s)
    ensures exists id :: Stands(MarketOf(s), id, loc, Sell, px)
    ensures forall id, other: u32 :: Stands(MarketOf(s), id, loc, Sell, other) ==> px <= other
  {
    hide Coherent, MarketOf, Consistent, Stands, IndexedWait;
    QuotesAreOrders(s, loc, Sell, px);
    forall id, other: u32 | Stands(MarketOf(s), id, loc, Sell, other)
      ensures px <= other
    {
      QuotesAreOrders(s, loc, Sell, other);
    }
  }
}
