/** The market invariant over every step and every run. */
module MarketInvariants {
  import opened Types
  import opened Markets

  lemma InitialIsWellFormed(limits: Limits)
    ensures WellFormed(limits, INITIAL)
  {
  }

  lemma ArriveConsistent(m: Market, id: OrderId, r: Rest)
    requires Consistent(m) && id !in m.orders
    ensures Consistent(Arrive(m, id, r))
  {
    var m', k := Arrive(m, id, r), r.Place();
    assert id !in QueueFor(m, k);
    assert forall x :: x in m'.queues[k] <==> x in QueueFor(m, k) || x == id;
  }

  lemma ArriveKeeps(m: Market, id: OrderId, r: Rest)
    requires Consistent(m) && id !in m.orders
    ensures Consistent(Arrive(m, id, r))
    ensures |Arrive(m, id, r).orders| == |m.orders| + 1
    ensures |Arrive(m, id, r).queues| == |m.queues| + if r.Place() in m.queues then 0 else 1
  {
    hide Consistent;
    ArriveConsistent(m, id, r);
  }

  lemma LeaveConsistent(m: Market, id: OrderId)
    requires Consistent(m) && id in m.orders
    ensures Consistent(Leave(m, id))
  {
    var m', k := Leave(m, id), m.orders[id].Place();
    WithoutMembers(m.queues[k], id);
    forall x, y | x in m'.queues && y in m'.queues[x]
      ensures y in m'.orders && m'.orders[y].Place() == x
    {
      assert y in m.queues[x];
    }
    forall x | x in m'.orders
      ensures m'.orders[x].Place() in m'.queues && x in m'.queues[m'.orders[x].Place()]
    {
      assert x in m.queues[m.orders[x].Place()];
    }
  }

  lemma LeaveKeeps(m: Market, id: OrderId)
    requires Consistent(m) && id in m.orders
    ensures m.orders[id].Place() in m.queues
    ensures Consistent(Leave(m, id))
    ensures |Leave(m, id).orders| == |m.orders| - 1
    ensures |Leave(m, id).queues| == |m.queues| - if m.queues[m.orders[id].Place()] == [id] then 1 else 0
  {
    hide Consistent;
    LeaveConsistent(m, id);
    QueueHolds(m, id);
    var m', k := Leave(m, id), m.orders[id].Place();
    SoleMember(m.queues[k], id);
    assert m'.orders.Keys == m.orders.Keys - {id};
    assert m'.queues.Keys == if Without(m.queues[k], id) == [] then m.queues.Keys - {k} else m.queues.Keys;
  }

  lemma QueueHolds(m: Market, id: OrderId)
    requires Consistent(m) && id in m.orders
    ensures var k := m.orders[id].Place();
            k in m.queues && id in m.queues[k] && Distinct(m.queues[k]) && m.queues[k] != []
  {
  }

  lemma SoleMember<T>(s: seq<T>, x: T)
    requires x in s && Distinct(s)
    ensures Without(s, x) == [] <==> s == [x]
  {
    WithoutMembers(s, x);
    if |s| >= 2 {
      assert s[0] != s[1];
      assert s[0] in Without(s, x) || s[1] in Without(s, x);
    }
  }

  lemma ShrinkKeeps(m: Market, id: OrderId, qty: u32)
    requires Consistent(m) && id in m.orders && qty <= m.orders[id].shares
    ensures Consistent(Shrink(m, id, qty))
    ensures |Shrink(m, id, qty).orders| == |m.orders|
  {
    assert Shrink(m, id, qty).orders.Keys == m.orders.Keys;
  }

  lemma ClearConsistent(m: Market, loc: u16)
    requires Consistent(m)
    ensures Consistent(ClearBook(m, loc))
  {
  }

  lemma ClearKeeps(m: Market, loc: u16)
    requires Consistent(m)
    ensures Consistent(ClearBook(m, loc))
    ensures |ClearBook(m, loc).orders| == |m.orders| - |OrdersAt(m, loc)|
    ensures |ClearBook(m, loc).queues| == |m.queues| - |LevelsAt(m, loc)|
  {
    hide Consistent;
    ClearConsistent(m, loc);
    var m' := ClearBook(m, loc);
    assert m'.orders.Keys == m.orders.Keys - OrdersAt(m, loc);
    assert m'.queues.Keys == m.queues.Keys - LevelsAt(m, loc);
    assert OrdersAt(m, loc) <= m.orders.Keys && LevelsAt(m, loc) <= m.queues.Keys;
  }

  lemma TakeKeeps(m: Market, id: OrderId, qty: u32)
    requires Consistent(m) && id in m.orders
    ensures Consistent(Take(m, id, qty))
    ensures |Take(m, id, qty).orders| <= |m.orders| && |Take(m, id, qty).queues| <= |m.queues|
  {
    if qty < m.orders[id].shares {
      ShrinkKeeps(m, id, qty);
    } else {
      LeaveKeeps(m, id);
    }
  }

  lemma AddKeeps(limits: Limits, st: State, ev: Event)
    requires WellFormed(limits, st) && ev.Add?
    ensures WellFormed(limits, StepAdd(limits, st, ev))
  {
    hide Consistent, Arrive;
    if ev.id !in st.market.orders {
      ArriveKeeps(st.market, ev.id, AddedRest(ev));
    }
  }

  lemma TakingKeeps(limits: Limits, st: State, loc: u16, id: OrderId, qty: u32, accept: EngineStats -> EngineStats)
    requires WellFormed(limits, st)
    requires forall s :: accept(s).peakLiveOrders == s.peakLiveOrders && accept(s).peakLiveLevels == s.peakLiveLevels
    ensures WellFormed(limits, StepTake(st, loc, id, qty, accept))
  {
    hide Consistent, Take;
    if id in st.market.orders {
      TakeKeeps(st.market, id, qty);
    }
  }

  lemma ReplaceKeeps(limits: Limits, st: State, ev: Event)
    requires WellFormed(limits, st) && ev.Replace?
    ensures WellFormed(limits, StepReplace(limits, st, ev))
  {
    hide Consistent, Arrive, Leave;
    var m := st.market;
    if ev.id in m.orders && ev.newId !in m.orders {
      LeaveKeeps(m, ev.id);
      LeaveOrders(m, ev.id);
      ArriveKeeps(Leave(m, ev.id), ev.newId, ReplacedRest(m.orders[ev.id], ev));
    }
  }

  /** Every step of every event keeps the invariant, rejected events included. */
  lemma StepKeepsWellFormed(limits: Limits, st: State, ev: Event)
    requires WellFormed(limits, st)
    ensures WellFormed(limits, Step(limits, st, ev))
  {
    hide Consistent, Leave, ClearBook, StepAdd, StepReplace, StepTake;
    match ev
    case Add(_, id, _, _, _, _, _, _) => AddKeeps(limits, st, ev);
    case Execute(loc, id, qty, _) =>
      TakingKeeps(limits, st, loc, id, qty, (s: EngineStats) => s.(orderExecuted := s.orderExecuted + 1));
    case ExecuteAt(loc, id, qty, _, _, _) =>
      TakingKeeps(limits, st, loc, id, qty,
          (s: EngineStats) => s.(orderExecutedWithPrice := s.orderExecutedWithPrice + 1));
    case Cancel(loc, id, qty) =>
      TakingKeeps(limits, st, loc, id, qty, (s: EngineStats) => s.(orderCancel := s.orderCancel + 1));
    case Delete(loc, id) =>
      if id in st.market.orders { LeaveKeeps(st.market, id); }
    case Replace(_, id, newId, _, _, _) => ReplaceKeeps(limits, st, ev);
    case Trade(_, _, _, _) =>
    case Cross(loc, _) => ClearKeeps(st.market, loc);
    case Broken(_, _) =>
  }

  lemma LeaveOrders(m: Market, id: OrderId)
    requires id in m.orders
    ensures Leave(m, id).orders == m.orders - {id}
  {
  }

  lemma {:induction false} RunKeepsWellFormed(limits: Limits, st: State, evs: seq<Event>)
    requires WellFormed(limits, st)
    ensures WellFormed(limits, Run(limits, st, evs))
  {
    if evs != [] {
      RunKeepsWellFormed(limits, st, evs[..|evs| - 1]);
      StepKeepsWellFormed(limits, Run(limits, st, evs[..|evs| - 1]), evs[|evs| - 1]);
    }
  }

  lemma {:induction false} RunAppend(limits: Limits, st: State, a: seq<Event>, b: seq<Event>)
    ensures Run(limits, st, a + b) == Run(limits, Run(limits, st, a), b)
  {
    if b == [] {
      assert a + b == a;
    } else {
      RunAppend(limits, st, a, b[..|b| - 1]);
      assert (a + b)[..|a + b| - 1] == a + b[..|b| - 1];
    }
  }
}
