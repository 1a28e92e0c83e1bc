/** The order in which a book's resting orders are visited: best price first, oldest first at one price. */
module VisitOrders {
  import opened Types
  import opened PriceLevels
  import opened BookShapes

  predicate Earlier(q: seq<Ptr>, a: Ptr, b: Ptr) {
    exists i, j :: 0 <= i < j < |q| && q[i] == a && q[j] == b
  }

  /** Of two orders a comes first: at a higher bid or a lower ask, or at the same price and earlier in its queue. */
  ghost predicate First(om: seq<Cell<Order>>, v: BookView, s: Side, a: Ptr, b: Ptr)
    requires Live(om, a) && Live(om, b)
  {
    var x, y := om[a].value.price, om[b].value.price;
    || (s == Buy && x > y)
    || (s == Sell && x < y)
    || (x == y && x in v.On(s).table && Earlier(QueueOf(v.fifo, v.On(s).table[x]), a, b))
  }

  /** Every order of a list comes before all that stand behind it. */
  ghost predicate InPriority(om: seq<Cell<Order>>, v: BookView, s: Side, visited: seq<Ptr>) {
    && (forall i :: 0 <= i < |visited| ==> Live(om, visited[i]))
    && (forall i, j :: 0 <= i < j < |visited| ==> First(om, v, s, visited[i], visited[j]))
  }

  /** The orders of a list wait in the first n levels of a side. */
  ghost predicate WaitIn(om: seq<Cell<Order>>, lm: seq<Cell<Level>>, list: seq<Ptr>, n: nat, visited: seq<Ptr>)
    requires n <= |list|
  {
    forall i :: 0 <= i < |visited| ==>
      Live(om, visited[i])
      && exists m :: 0 <= m < n && Live(lm, list[m]) && lm[list[m]].value.price == om[visited[i]].value.price
  }

  lemma LevelFacts(om: seq<Cell<Order>>, lm: seq<Cell<Level>>, loc: u16, v: BookView, s: Side, m: nat)
    requires BookShape(om, lm, loc, v) && m < |v.On(s).list|
    ensures var l := v.On(s).list[m];
            && Live(lm, l) && l in v.fifo
            && lm[l].value.price in v.On(s).table && v.On(s).table[lm[l].value.price] == l
            && forall k :: 0 <= k < |v.fifo[l]| ==>
                 Live(om, v.fifo[l][k]) && om[v.fifo[l][k]].value.price == lm[l].value.price
  {
    hide Walk;
    var l := v.On(s).list[m];
    assert l in v.fifo && Waiting(om, lm, loc, l, v.fifo[l]);
  }

  /** The orders of the next level come after all those of better levels. */
  lemma NextLevel(om: seq<Cell<Order>>, lm: seq<Cell<Level>>, loc: u16, v: BookView, s: Side, n: nat, before: seq<Ptr>)
    requires BookShape(om, lm, loc, v) && n < |v.On(s).list|
    requires InPriority(om, v, s, before) && WaitIn(om, lm, v.On(s).list, n, before)
    ensures var visited := before + QueueOf(v.fifo, v.On(s).list[n]);
            InPriority(om, v, s, visited) && WaitIn(om, lm, v.On(s).list, n + 1, visited)
  {
    hide BookShape, Earlier;
    var list := v.On(s).list;
    var q := QueueOf(v.fifo, list[n]);
    LevelFacts(om, lm, loc, v, s, n);
    BidsFallAsksRise(om, lm, loc, v);
    forall i, j | 0 <= i < j < |before + q|
      ensures Live(om, (before + q)[i]) && Live(om, (before + q)[j])
      ensures First(om, v, s, (before + q)[i], (before + q)[j])
    {
      if |before| <= i {
        InQueue(q, i - |before|, j - |before|);
      } else if |before| <= j {
        assert (before + q)[j] == q[j - |before|];
      }
    }
  }

  lemma InQueue(q: seq<Ptr>, i: nat, j: nat)
    requires i < j < |q|
    ensures Earlier(q, q[i], q[j])
  {
  }

  lemma {:induction false} LevelsInPriority(om: seq<Cell<Order>>, lm: seq<Cell<Level>>, loc: u16, v: BookView, s: Side,
                                            n: nat)
    requires BookShape(om, lm, loc, v) && n <= |v.On(s).list|
    ensures InPriority(om, v, s, Walk(v.On(s).list[..n], v.fifo))
    ensures WaitIn(om, lm, v.On(s).list, n, Walk(v.On(s).list[..n], v.fifo))
  {
    hide BookShape, InPriority, WaitIn;
    if n == 0 {
      NoneVisited(om, lm, v, s);
    } else {
      LevelsInPriority(om, lm, loc, v, s, n - 1);
      NextLevel(om, lm, loc, v, s, n - 1, Walk(v.On(s).list[..n - 1], v.fifo));
      assert v.On(s).list[..n][..n - 1] == v.On(s).list[..n - 1];
    }
  }

  lemma NoneVisited(om: seq<Cell<Order>>, lm: seq<Cell<Level>>, v: BookView, s: Side)
    ensures InPriority(om, v, s, []) && WaitIn(om, lm, v.On(s).list, 0, [])
  {
  }

  /** The walk of a side visits its orders in price-time priority. */
  lemma WalkInPriority(om: seq<Cell<Order>>, lm: seq<Cell<Level>>, loc: u16, v: BookView, s: Side)
    requires BookShape(om, lm, loc, v)
    ensures InPriority(om, v, s, Walk(v.On(s).list, v.fifo))
  {
    hide BookShape, InPriority, WaitIn, Walk;
    var list := v.On(s).list;
    LevelsInPriority(om, lm, loc, v, s, |list|);
    assert list[..|list|] == list;
  }
}
