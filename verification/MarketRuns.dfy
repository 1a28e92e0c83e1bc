/** Where shares go: over every run, none is made or lost. */
module MarketRuns {
  import opened Types
  import opened Markets
  import opened MarketInvariants

  // ---- shares ----

  /** All shares of these resting orders together. */
  ghost function Resting(orders: map<OrderId, Rest>): nat
    decreases orders.Keys
  {
    if orders == map[] then 0
    else
      var id :| id in orders;
      orders[id].shares + Resting(orders - {id})
  }

  lemma {:induction false} RestingSplit(orders: map<OrderId, Rest>, id: OrderId)
    requires id in orders
    ensures Resting(orders) == orders[id].shares + Resting(orders - {id})
    decreases orders.Keys
  {
    var first :| first in orders && Resting(orders) == orders[first].shares + Resting(orders - {first});
    if first != id {
      RestingSplit(orders - {first}, id);
      RestingSplit(orders - {id}, first);
      assert orders - {first} - {id} == orders - {id} - {first};
    }
  }

  lemma RestingInsert(orders: map<OrderId, Rest>, id: OrderId, r: Rest)
    requires id !in orders
    ensures Resting(orders[id := r]) == Resting(orders) + r.shares
  {
    RestingSplit(orders[id := r], id);
    assert orders[id := r] - {id} == orders;
  }

  lemma RestingUpdate(orders: map<OrderId, Rest>, id: OrderId, r: Rest)
    requires id in orders
    ensures Resting(orders[id := r]) == Resting(orders) - orders[id].shares + r.shares
  {
    RestingSplit(orders[id := r], id);
    RestingSplit(orders, id);
    assert orders[id := r] - {id} == orders - {id};
  }

  /** The orders of m that are gone in m'. */
  function Gone(m: Market, m': Market): map<OrderId, Rest> {
    m.orders - m'.orders.Keys
  }

  lemma {:induction false} RestingPart(orders: map<OrderId, Rest>, gone: set<OrderId>)
    ensures Resting(orders) == Resting(orders - gone) + Resting(orders - (orders.Keys - gone))
    decreases |gone|
  {
    if gone == {} {
      assert orders - gone == orders && orders - (orders.Keys - gone) == map[];
    } else {
      var id :| id in gone;
      var rest := gone - {id};
      RestingPart(orders, rest);
      if id in orders {
        RestingSplit(orders - rest, id);
        assert orders - rest - {id} == orders - gone;
        var part := orders - (orders.Keys - gone);
        RestingSplit(part, id);
        assert part - {id} == orders - (orders.Keys - rest);
      } else {
        assert orders - gone == orders - rest;
        assert orders - (orders.Keys - gone) == orders - (orders.Keys - rest);
      }
    }
  }

  /** Shares that come in with an accepted add or replace, leave by executions and cancels, and leave with orders
      that are deleted, replaced or cleared. */
  datatype Flow = Flow(entered: nat, taken: nat, dropped: nat)

  function Min(a: nat, b: nat): nat {
    if a < b then a else b
  }

  ghost function FlowOf(m: Market, ev: Event, m': Market): Flow {
    match ev
    case Add(_, id, _, qty, _, _, _, _) => Flow(if id in m'.orders && id !in m.orders then qty else 0, 0, 0)
    case Execute(_, id, qty, _) => Flow(0, if id in m.orders then Min(qty, m.orders[id].shares) else 0, 0)
    case ExecuteAt(_, id, qty, _, _, _) => Flow(0, if id in m.orders then Min(qty, m.orders[id].shares) else 0, 0)
    case Cancel(_, id, qty) => Flow(0, if id in m.orders then Min(qty, m.orders[id].shares) else 0, 0)
    case Delete(_, id) => Flow(0, 0, if id in m.orders then m.orders[id].shares else 0)
    case Replace(_, _, newId, qty, _, _) =>
      Flow(if newId in m'.orders && newId !in m.orders then qty else 0, 0, Resting(Gone(m, m')))
    case Cross(_, _) => Flow(0, 0, Resting(Gone(m, m')))
    case _ => Flow(0, 0, 0)
  }

  ghost function FlowOver(limits: Limits, st: State, evs: seq<Event>): Flow {
    if evs == [] then Flow(0, 0, 0)
    else
      var before, ev := evs[..|evs| - 1], evs[|evs| - 1];
      var mid := Run(limits, st, before);
      var f, g := FlowOver(limits, st, before), FlowOf(mid.market, ev, Step(limits, mid, ev).market);
      Flow(f.entered + g.entered, f.taken + g.taken, f.dropped + g.dropped)
  }

  lemma TakeConserves(m: Market, id: OrderId, qty: u32)
    requires id in m.orders
    ensures Resting(m.orders) == Resting(Take(m, id, qty).orders) + Min(qty, m.orders[id].shares)
  {
    if qty < m.orders[id].shares {
      RestingUpdate(m.orders, id, m.orders[id].(shares := m.orders[id].shares - qty));
    } else {
      RestingSplit(m.orders, id);
    }
  }

  lemma SingleRests(m: Market, id: OrderId)
    ensures Resting(map[]) == 0
    ensures id in m.orders ==> Resting(map[id := m.orders[id]]) == m.orders[id].shares
  {
    if id in m.orders {
      RestingSplit(map[id := m.orders[id]], id);
      assert map[id := m.orders[id]] - {id} == map[];
    }
  }

  lemma ReplaceConserves(limits: Limits, st: State, ev: Event)
    requires ev.Replace?
    ensures var m, m' := st.market, StepReplace(limits, st, ev).market;
            var f := FlowOf(m, ev, m');
            Resting(m.orders) + f.entered == Resting(m'.orders) + f.dropped
  {
    hide Resting, Leave, Recount;
    var m, m' := st.market, StepReplace(limits, st, ev).market;
    SingleRests(m, ev.id);
    if ev.id !in m.orders || ev.newId in m.orders || |m.orders| >= limits.orders {
      assert Gone(m, m') == map[];
    } else {
      LeaveOrders(m, ev.id);
      MovedConserves(m, m', ev);
    }
  }

  lemma MovedConserves(m: Market, m': Market, ev: Event)
    requires ev.Replace? && ev.id in m.orders && ev.newId !in m.orders
    requires m'.orders == m.orders - {ev.id}
             || m'.orders == (m.orders - {ev.id})[ev.newId := ReplacedRest(m.orders[ev.id], ev)]
    ensures var f := FlowOf(m, ev, m'); Resting(m.orders) + f.entered == Resting(m'.orders) + f.dropped
  {
    hide Resting;
    SingleRests(m, ev.id);
    RestingSplit(m.orders, ev.id);
    assert Gone(m, m') == map[ev.id := m.orders[ev.id]];
    if ev.newId in m'.orders {
      RestingInsert(m.orders - {ev.id}, ev.newId, ReplacedRest(m.orders[ev.id], ev));
    }
  }

  lemma CrossConserves(m: Market, ev: Event, m': Market)
    requires ev.Cross? && (m' == m || m' == ClearBook(m, ev.loc))
    ensures Resting(m.orders) == Resting(m'.orders) + FlowOf(m, ev, m').dropped
  {
    hide Resting;
    RestingPart(m.orders, Gone(m, m').Keys);
    assert m.orders - Gone(m, m').Keys == m'.orders;
    assert m.orders - (m.orders.Keys - Gone(m, m').Keys) == Gone(m, m');
  }

  lemma AddConserves(limits: Limits, st: State, ev: Event)
    requires ev.Add?
    ensures var m, m' := st.market, StepAdd(limits, st, ev).market;
            Resting(m.orders) + FlowOf(m, ev, m').entered == Resting(m'.orders)
  {
    hide Resting, Recount;
    if ev.id !in st.market.orders {
      RestingInsert(st.market.orders, ev.id, AddedRest(ev));
    }
  }

  /** No step makes or loses a share: what rested and what entered is what rests, was taken or was dropped. */
  lemma StepConservesShares(limits: Limits, st: State, ev: Event)
    ensures var m, m' := st.market, Step(limits, st, ev).market;
            var f := FlowOf(m, ev, m');
            Resting(m.orders) + f.entered == Resting(m'.orders) + f.taken + f.dropped
  {
    hide Resting, StepAdd, StepReplace, Take, Leave, ClearBook, Recount;
    var m := st.market;
    match ev
    case Add(_, _, _, _, _, _, _, _) => AddConserves(limits, st, ev);
    case Execute(_, id, qty, _) => if id in m.orders { TakeConserves(m, id, qty); }
    case ExecuteAt(_, id, qty, _, _, _) => if id in m.orders { TakeConserves(m, id, qty); }
    case Cancel(_, id, qty) => if id in m.orders { TakeConserves(m, id, qty); }
    case Delete(_, id) =>
      if id in m.orders {
        RestingSplit(m.orders, id);
        LeaveOrders(m, id);
      }
    case Replace(_, _, _, _, _, _) => ReplaceConserves(limits, st, ev);
    case Cross(_, _) => CrossConserves(m, ev, Step(limits, st, ev).market);
    case Trade(_, _, _, _) =>
    case Broken(_, _) =>
  }

  /** Over any run. */
  lemma {:induction false} RunConservesShares(limits: Limits, st: State, evs: seq<Event>)
    ensures var f := FlowOver(limits, st, evs);
            Resting(st.market.orders) + f.entered == Resting(Run(limits, st, evs).market.orders) + f.taken + f.dropped
  {
    if evs != [] {
      var before, ev := evs[..|evs| - 1], evs[|evs| - 1];
      RunConservesShares(limits, st, before);
      StepConservesShares(limits, Run(limits, st, before), ev);
    }
  }

  /** A closing cross drops exactly the shares resting at its instrument. */
  lemma CrossDrops(limits: Limits, st: State, loc: u16)
    ensures var ev := Cross(loc, 'C' as int);
            var f := FlowOf(st.market, ev, Step(limits, st, ev).market);
            f == Flow(0, 0, Resting(st.market.orders - (st.market.orders.Keys - OrdersAt(st.market, loc))))
  {
    var m, m' := st.market, ClearBook(st.market, loc);
    assert Gone(m, m') == m.orders - (m.orders.Keys - OrdersAt(m, loc));
  }

  /** A replace of a live order that is past the checks on the new id and the order pool drops exactly the old
      order's shares, whether or not the new one finds a level; any other replace drops none. */
  lemma ReplaceDrops(limits: Limits, st: State, ev: Event)
    requires ev.Replace?
    ensures var m := st.market;
            var f := FlowOf(m, ev, Step(limits, st, ev).market);
            f.dropped
            == if ev.id in m.orders && ev.newId !in m.orders && |m.orders| < limits.orders then m.orders[ev.id].shares
               else 0
  {
    hide Resting, Leave, Recount;
    var m, m' := st.market, StepReplace(limits, st, ev).market;
    SingleRests(m, ev.id);
    if ev.id in m.orders && ev.newId !in m.orders && |m.orders| < limits.orders {
      LeaveOrders(m, ev.id);
      assert Gone(m, m') == map[ev.id := m.orders[ev.id]];
    } else {
      assert Gone(m, m') == map[];
    }
  }
}
