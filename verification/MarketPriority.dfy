/** Price-time priority: over any run, each queue stands in the order in which its orders were accepted. */
module MarketPriority {
  import opened Types
  import opened Markets
  import opened MarketInvariants

  /** The number of the event with which each live order came into the market. A replaced order is a new one. */
  function Births(limits: Limits, evs: seq<Event>): (born: map<OrderId, nat>)
    ensures born.Keys == Run(limits, INITIAL, evs).market.orders.Keys
    ensures forall id :: id in born ==> born[id] < |evs|
  {
    if evs == [] then map[]
    else Reborn(Births(limits, evs[..|evs| - 1]), Run(limits, INITIAL, evs).market, |evs| - 1)
  }

  function Reborn(born: map<OrderId, nat>, m: Market, n: nat): map<OrderId, nat> {
    map id | id in m.orders :: if id in born then born[id] else n
  }

  ghost predicate Increasing(q: seq<OrderId>, born: map<OrderId, nat>) {
    && (forall i :: 0 <= i < |q| ==> q[i] in born)
    && (forall i, j :: 0 <= i < j < |q| ==> born[q[i]] < born[q[j]])
  }

  ghost predicate InOrder(m: Market, born: map<OrderId, nat>) {
    forall k :: k in m.queues ==> Increasing(m.queues[k], born)
  }

  /** What the next step starts from: a birth before event n for every live order. */
  ghost predicate BornBefore(m: Market, born: map<OrderId, nat>, n: nat) {
    born.Keys == m.orders.Keys && (forall id :: id in born ==> born[id] < n) && InOrder(m, born)
  }

  lemma {:induction false} WithoutIncreasing(q: seq<OrderId>, born: map<OrderId, nat>, id: OrderId)
    requires Increasing(q, born)
    ensures Increasing(Without(q, id), born)
  {
    if q != [] {
      assert Increasing(q[1..], born);
      WithoutIncreasing(q[1..], born, id);
      WithoutSubset(q[1..], id);
    }
  }

  lemma {:induction false} WithoutSubset(q: seq<OrderId>, id: OrderId)
    ensures forall x :: x in Without(q, id) ==> x in q
  {
    if q != [] {
      WithoutSubset(q[1..], id);
    }
  }

  /** Births of the survivors do not change. */
  lemma StillIncreasing(q: seq<OrderId>, born: map<OrderId, nat>, m': Market, n: nat)
    requires Increasing(q, born) && forall i :: 0 <= i < |q| ==> q[i] in m'.orders
    ensures Increasing(q, Reborn(born, m', n))
  {
  }

  lemma QueuesAreLive(m: Market, k: Key)
    requires Consistent(m) && k in m.queues
    ensures forall i :: 0 <= i < |m.queues[k]| ==> m.queues[k][i] in m.orders
  {
    forall i | 0 <= i < |m.queues[k]|
      ensures m.queues[k][i] in m.orders
    {
      assert m.queues[k][i] in m.queues[k];
    }
  }

  /** A step whose queues are old ones, with or without one order. */
  lemma ThinnedInOrder(m: Market, m': Market, id: OrderId, born: map<OrderId, nat>, n: nat)
    requires BornBefore(m, born, n) && Consistent(m')
    requires forall k :: k in m'.queues ==>
               k in m.queues && (m'.queues[k] == m.queues[k] || m'.queues[k] == Without(m.queues[k], id))
    ensures InOrder(m', Reborn(born, m', n))
  {
    hide Consistent;
    forall k | k in m'.queues
      ensures Increasing(m'.queues[k], Reborn(born, m', n))
    {
      QueuesAreLive(m', k);
      if m'.queues[k] != m.queues[k] {
        WithoutIncreasing(m.queues[k], born, id);
      }
      StillIncreasing(m'.queues[k], born, m', n);
    }
  }

  lemma LeaveInOrder(m: Market, id: OrderId, born: map<OrderId, nat>, n: nat)
    requires Consistent(m) && id in m.orders && BornBefore(m, born, n)
    ensures BornBefore(Leave(m, id), Reborn(born, Leave(m, id), n), n)
  {
    hide Consistent, InOrder;
    QueueHolds(m, id);
    LeaveConsistent(m, id);
    ThinnedInOrder(m, Leave(m, id), id, born, n);
    RebornSurvivors(born, m, Leave(m, id), n);
  }

  lemma RebornSurvivors(born: map<OrderId, nat>, m: Market, m': Market, n: nat)
    requires born.Keys == m.orders.Keys && (forall id :: id in born ==> born[id] < n)
    requires forall id :: id in m'.orders ==> id in m.orders
    ensures Reborn(born, m', n).Keys == m'.orders.Keys
    ensures forall id :: id in Reborn(born, m', n) ==> Reborn(born, m', n)[id] < n
  {
  }

  lemma ArriveInOrder(m: Market, id: OrderId, r: Rest, born: map<OrderId, nat>, n: nat)
    requires Consistent(m) && id !in m.orders && BornBefore(m, born, n)
    ensures InOrder(Arrive(m, id, r), Reborn(born, Arrive(m, id, r), n))
  {
    hide Consistent;
    var m' := Arrive(m, id, r);
    forall k | k in m'.queues
      ensures Increasing(m'.queues[k], Reborn(born, m', n))
    {
      if k in m.queues {
        QueuesAreLive(m, k);
      }
    }
  }

  lemma TakeInOrder(m: Market, id: OrderId, qty: u32, born: map<OrderId, nat>, n: nat)
    requires Consistent(m) && id in m.orders && BornBefore(m, born, n)
    ensures InOrder(Take(m, id, qty), Reborn(born, Take(m, id, qty), n))
  {
    hide Consistent, InOrder, Leave, Reborn;
    if qty < m.orders[id].shares {
      ShrinkKeeps(m, id, qty);
      ThinnedInOrder(m, Shrink(m, id, qty), id, born, n);
    } else {
      LeaveInOrder(m, id, born, n);
    }
  }

  lemma SameInOrder(m: Market, born: map<OrderId, nat>, n: nat)
    requires Consistent(m) && BornBefore(m, born, n)
    ensures InOrder(m, Reborn(born, m, n))
  {
    hide Consistent, InOrder;
    ThinnedInOrder(m, m, 0, born, n);
  }

  lemma ReplaceInOrder(limits: Limits, st: State, ev: Event, born: map<OrderId, nat>, n: nat)
    requires WellFormed(limits, st) && ev.Replace? && BornBefore(st.market, born, n)
    ensures var m' := StepReplace(limits, st, ev).market; InOrder(m', Reborn(born, m', n))
  {
    hide Consistent, InOrder, Leave, Arrive, BornBefore;
    var m := st.market;
    SameInOrder(m, born, n);
    if ev.id in m.orders && ev.newId !in m.orders {
      var m1, r := Leave(m, ev.id), ReplacedRest(m.orders[ev.id], ev);
      LeaveConsistent(m, ev.id);
      LeaveOrders(m, ev.id);
      LeaveInOrder(m, ev.id, born, n);
      BornBeforeIs(m1, Reborn(born, m1, n), n);
      ArriveInOrder(m1, ev.newId, r, Reborn(born, m1, n), n);
      RebornTwice(m, born, n, m1, ev.newId, r);
    }
  }

  lemma BornBeforeIs(m: Market, born: map<OrderId, nat>, n: nat)
    requires BornBefore(m, born, n)
    ensures InOrder(m, born)
  {
  }

  lemma RebornTwice(m: Market, born: map<OrderId, nat>, n: nat, m1: Market, id: OrderId, r: Rest)
    requires BornBefore(m, born, n) && id !in m.orders && m1.orders.Keys <= m.orders.Keys
    ensures var m2 := Arrive(m1, id, r); Reborn(Reborn(born, m1, n), m2, n) == Reborn(born, m2, n)
  {
  }

  lemma StepInOrder(limits: Limits, st: State, ev: Event, born: map<OrderId, nat>, n: nat)
    requires WellFormed(limits, st) && BornBefore(st.market, born, n)
    ensures var m' := Step(limits, st, ev).market; InOrder(m', Reborn(born, m', n))
  {
    hide Consistent, InOrder, Leave, Arrive, BornBefore, Take, StepReplace, Recount;
    var m := st.market;
    SameInOrder(m, born, n);
    match ev
    case Add(_, id, _, _, _, _, _, _) =>
      if id !in m.orders { ArriveInOrder(m, id, AddedRest(ev), born, n); }
    case Execute(_, id, qty, _) => if id in m.orders { TakeInOrder(m, id, qty, born, n); }
    case ExecuteAt(_, id, qty, _, _, _) => if id in m.orders { TakeInOrder(m, id, qty, born, n); }
    case Cancel(_, id, qty) => if id in m.orders { TakeInOrder(m, id, qty, born, n); }
    case Delete(_, id) =>
      if id in m.orders {
        LeaveInOrder(m, id, born, n);
        BornBeforeIs(Leave(m, id), Reborn(born, Leave(m, id), n), n);
      }
    case Replace(_, _, _, _, _, _) => ReplaceInOrder(limits, st, ev, born, n);
    case Cross(loc, _) =>
      ClearConsistent(m, loc);
      ThinnedInOrder(m, ClearBook(m, loc), 0, born, n);
    case Trade(_, _, _, _) =>
    case Broken(_, _) =>
  }

  /** After any run, under any mix of adds, partial fills, cancels, replaces and removals, of two orders waiting at
      one price the one accepted earlier stands before the other. */
  lemma {:induction false} PriceTimePriority(limits: Limits, evs: seq<Event>)
    ensures var m := Run(limits, INITIAL, evs).market;
            BornBefore(m, Births(limits, evs), |evs|)
  {
    hide Step, InOrder;
    InitialIsWellFormed(limits);
    if evs == [] {
      assert BornBefore(INITIAL.market, map[], 0) by {
        EmptyInOrder();
      }
    } else {
      var before := evs[..|evs| - 1];
      PriceTimePriority(limits, before);
      RunKeepsWellFormed(limits, INITIAL, before);
      StepInOrder(limits, Run(limits, INITIAL, before), evs[|evs| - 1], Births(limits, before), |evs| - 1);
    }
  }

  lemma EmptyInOrder()
    ensures InOrder(INITIAL.market, map[])
  {
  }

  /** Acceptance order decides the queues completely: who waits at a price and when each was accepted leaves only
      one possible queue. */
  lemma QueueIsByBirth(limits: Limits, evs: seq<Event>, k: Key, q: seq<OrderId>)
    requires var m := Run(limits, INITIAL, evs).market;
             && k in m.queues && Increasing(q, Births(limits, evs))
             && forall id :: id in q <==> id in m.orders && m.orders[id].Place() == k
    ensures q == Run(limits, INITIAL, evs).market.queues[k]
  {
    hide Births, Run;
    var m, born := Run(limits, INITIAL, evs).market, Births(limits, evs);
    PriceTimePriority(limits, evs);
    InitialIsWellFormed(limits);
    RunKeepsWellFormed(limits, INITIAL, evs);
    var p := m.queues[k];
    forall id
      ensures id in p <==> id in q
    {
    }
    SameSorted(p, q, born);
  }

  lemma {:induction false} SameSorted(p: seq<OrderId>, q: seq<OrderId>, born: map<OrderId, nat>)
    requires Increasing(p, born) && Increasing(q, born)
    requires forall id :: id in p <==> id in q
    ensures p == q
  {
    assert (p != [] ==> p[0] in q) && (q != [] ==> q[0] in p);
    if p != [] {
      assert p[0] == q[0];
      assert p == [p[0]] + p[1..] && q == [q[0]] + q[1..];
      forall id
        ensures id in p[1..] <==> id in q[1..]
      {
        assert id in p[1..] ==> id in p && id != p[0];
        assert id in q[1..] ==> id in q && id != q[0];
      }
      SameSorted(p[1..], q[1..], born);
    }
  }
}
