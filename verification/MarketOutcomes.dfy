/** What each event does to the orders and the queues, and which counters it moves, in terms of ids, shares and
    capacities only. */
module MarketOutcomes {
  import opened Types
  import opened Markets
  import opened MarketInvariants
  import opened MarketEvents

  // ---- orders and queues ----

  /** Where an add puts its order: indicator 'B' is a bid, any other an ask. */
  function AddKey(ev: Event): Key
    requires ev.Add?
  {
    Key(ev.loc, if ev.indicator == 'B' as int then Buy else Sell, ev.px)
  }

  predicate AddFits(limits: Limits, m: Market, ev: Event)
    requires ev.Add?
  {
    && ev.id !in m.orders && |m.orders| < limits.orders
    && (AddKey(ev) in m.queues || |m.queues| < limits.levels)
  }

  /** An add is accepted exactly when its id is new and slots are left. It then brings one order with the fields of
      the message, last in its queue, and touches no other order or queue; otherwise it brings nothing. */
  lemma AddOutcomes(limits: Limits, st: State, ev: Event)
    requires ev.Add?
    ensures var m, m', k := st.market, Step(limits, st, ev).market, AddKey(ev);
            && (Accepts(limits, st, ev) <==> AddFits(limits, m, ev))
            && (!AddFits(limits, m, ev) ==> m' == m)
            && (AddFits(limits, m, ev) ==>
                  && m'.orders
                     == m.orders[ev.id := Rest(ev.loc, if ev.indicator == 'B' as int then Buy else Sell, ev.px, ev.qty,
                                               ev.ts, if ev.attributed then ev.mpid else [32, 32, 32, 32])]
                  && m'.queues == m.queues[k := (if k in m.queues then m.queues[k] else []) + [ev.id]])
  {
  }

  /** Only id has gone: from its queue, the others keeping their turns, and its queue with it if it was alone. */
  ghost predicate OnlyLeaves(id: OrderId, k: Key, m: Market, m': Market) {
    && m'.orders == m.orders - {id}
    && k in m.queues
    && var q := m.queues[k];
    && exists i :: 0 <= i < |q| && q[i] == id
                   && m'.queues == if |q| == 1 then m.queues - {k} else m.queues[k := q[..i] + q[i + 1..]]
  }

  lemma LeaveOutcome(m: Market, id: OrderId)
    requires Consistent(m) && id in m.orders
    ensures OnlyLeaves(id, m.orders[id].Place(), m, Leave(m, id))
  {
    hide Consistent, Without;
    var k := m.orders[id].Place();
    QueueHolds(m, id);
    var q := m.queues[k];
    var i :| 0 <= i < |q| && q[i] == id;
    WithoutAt(q, i);
    assert |Without(q, id)| == |q| - 1;
  }

  /** Executions and cancels: an unknown id changes nothing, fewer shares than the order has leave it in its place
      with the rest, and as many or more remove it. */
  lemma TakeOutcomes(limits: Limits, st: State, ev: Event)
    requires Consistent(st.market) && (ev.Execute? || ev.ExecuteAt? || ev.Cancel?)
    ensures var m, m' := st.market, Step(limits, st, ev).market;
            && (ev.id !in m.orders ==> m' == m)
            && (ev.id in m.orders && ev.qty < m.orders[ev.id].shares ==>
                  && m'.orders == m.orders[ev.id := m.orders[ev.id].(shares := m.orders[ev.id].shares - ev.qty)]
                  && m'.queues == m.queues)
            && (ev.id in m.orders && ev.qty >= m.orders[ev.id].shares ==>
                  OnlyLeaves(ev.id, m.orders[ev.id].Place(), m, m'))
  {
    hide Consistent, Leave, OnlyLeaves, Recount;
    if ev.id in st.market.orders {
      LeaveOutcome(st.market, ev.id);
    }
  }

  lemma DeleteOutcomes(limits: Limits, st: State, ev: Event)
    requires Consistent(st.market) && ev.Delete?
    ensures var m, m' := st.market, Step(limits, st, ev).market;
            if ev.id in m.orders then OnlyLeaves(ev.id, m.orders[ev.id].Place(), m, m') else m' == m
  {
    hide Consistent, Leave, OnlyLeaves, Recount;
    if ev.id in st.market.orders {
      LeaveOutcome(st.market, ev.id);
    }
  }

  // ---- counters ----

  /** The counters other than the live ones and their peaks. */
  datatype Counter =
    | AddOrders | AddOrdersWithMpid | OrderExecuted | OrderExecutedWithPrice | OrderCancel | OrderDelete
    | OrderReplace | NonCrossTrades | CrossTrades | BrokenTrades | AddRejectedPoolExhausted
    | AddRejectedLevelPoolExhausted | ReplaceRejectedPoolExhausted | DuplicateAdds | LocateMismatches | LevelMissing
    | UnknownOrderEvents | PoolExhausted

  function ValueOf(s: EngineStats, c: Counter): int {
    match c
    case AddOrders => s.addOrders
    case AddOrdersWithMpid => s.addOrdersWithMpid
    case OrderExecuted => s.orderExecuted
    case OrderExecutedWithPrice => s.orderExecutedWithPrice
    case OrderCancel => s.orderCancel
    case OrderDelete => s.orderDelete
    case OrderReplace => s.orderReplace
    case NonCrossTrades => s.nonCrossTrades
    case CrossTrades => s.crossTrades
    case BrokenTrades => s.brokenTrades
    case AddRejectedPoolExhausted => s.addRejectedPoolExhausted
    case AddRejectedLevelPoolExhausted => s.addRejectedLevelPoolExhausted
    case ReplaceRejectedPoolExhausted => s.replaceRejectedPoolExhausted
    case DuplicateAdds => s.duplicateAdds
    case LocateMismatches => s.locateMismatches
    case LevelMissing => s.levelMissing
    case UnknownOrderEvents => s.unknownOrderEvents
    case PoolExhausted => s.poolExhausted
  }

  /** The events that name an order which should be live. */
  predicate Refers(ev: Event) {
    ev.Execute? || ev.ExecuteAt? || ev.Cancel? || ev.Delete? || ev.Replace?
  }

  predicate NoSlotForAdd(limits: Limits, m: Market, ev: Event) {
    ev.Add? && ev.id !in m.orders && |m.orders| >= limits.orders
  }

  predicate NoLevelForAdd(limits: Limits, m: Market, ev: Event) {
    && ev.Add? && ev.id !in m.orders && |m.orders| < limits.orders
    && AddKey(ev) !in m.queues && |m.queues| >= limits.levels
  }

  predicate NoSlotForReplace(limits: Limits, m: Market, ev: Event) {
    ev.Replace? && ev.id in m.orders && ev.newId !in m.orders && |m.orders| >= limits.orders
  }

  predicate Duplicate(m: Market, ev: Event) {
    (ev.Add? && ev.id in m.orders) || (ev.Replace? && ev.id in m.orders && ev.newId in m.orders)
  }

  /** Whether an event that finds the market as m is one of those that c counts. */
  predicate Counts(limits: Limits, m: Market, ev: Event, c: Counter) {
    match c
    case AddOrders => ev.Add? && !ev.attributed && AddFits(limits, m, ev)
    case AddOrdersWithMpid => ev.Add? && ev.attributed && AddFits(limits, m, ev)
    case OrderExecuted => ev.Execute? && ev.id in m.orders
    case OrderExecutedWithPrice => ev.ExecuteAt? && ev.id in m.orders
    case OrderCancel => ev.Cancel? && ev.id in m.orders
    case OrderDelete => ev.Delete? && ev.id in m.orders
    case OrderReplace =>
      && ev.Replace? && ev.id in m.orders && ev.newId !in m.orders && |m.orders| < limits.orders
      && !LosesOrder(limits, m, ev)
    case NonCrossTrades => ev.Trade?
    case CrossTrades => ev.Cross?
    case BrokenTrades => ev.Broken?
    case AddRejectedPoolExhausted => NoSlotForAdd(limits, m, ev)
    case AddRejectedLevelPoolExhausted => NoLevelForAdd(limits, m, ev) || (ev.Replace? && LosesOrder(limits, m, ev))
    case ReplaceRejectedPoolExhausted => NoSlotForReplace(limits, m, ev)
    case DuplicateAdds => Duplicate(m, ev)
    case LocateMismatches => Refers(ev) && ev.id in m.orders && m.orders[ev.id].loc != ev.loc
    case LevelMissing => false
    case UnknownOrderEvents => Duplicate(m, ev) || (Refers(ev) && ev.id !in m.orders)
    case PoolExhausted =>
      || NoSlotForAdd(limits, m, ev) || NoLevelForAdd(limits, m, ev) || NoSlotForReplace(limits, m, ev)
      || (ev.Replace? && LosesOrder(limits, m, ev))
  }

  ghost predicate Moved(limits: Limits, st: State, ev: Event, s': EngineStats, c: Counter) {
    ValueOf(s', c) == ValueOf(st.stats, c) + if Counts(limits, st.market, ev, c) then 1 else 0
  }

  lemma AddMoves(limits: Limits, st: State, ev: Event, c: Counter)
    requires ev.Add?
    ensures Moved(limits, st, ev, Step(limits, st, ev).stats, c)
  {
    hide Arrive, LosesOrder;
  }

  lemma ReplaceMoves(limits: Limits, st: State, ev: Event, c: Counter)
    requires WellFormed(limits, st) && ev.Replace?
    ensures Moved(limits, st, ev, Step(limits, st, ev).stats, c)
  {
    hide Moved, Step, LosesOrder, Consistent;
    var m := st.market;
    if ev.id in m.orders && ev.newId !in m.orders && |m.orders| < limits.orders {
      ReplaceFailsWhen(limits, m, ev);
      MoveMoves(limits, st, ev, c);
    } else {
      NotPastTheChecks(limits, m, ev);
      RefusedMoves(limits, st, ev, c);
    }
  }

  lemma MoveMoves(limits: Limits, st: State, ev: Event, c: Counter)
    requires ev.Replace?
    requires ev.id in st.market.orders && ev.newId !in st.market.orders && |st.market.orders| < limits.orders
    requires var m1, k := Leave(st.market, ev.id), ReplacedRest(st.market.orders[ev.id], ev).Place();
             k !in m1.queues && |m1.queues| >= limits.levels <==> LosesOrder(limits, st.market, ev)
    ensures Moved(limits, st, ev, Step(limits, st, ev).stats, c)
  {
    hide Arrive, Leave, ReplacedRest, LosesOrder;
  }

  lemma RefusedMoves(limits: Limits, st: State, ev: Event, c: Counter)
    requires ev.Replace? && !LosesOrder(limits, st.market, ev)
    requires ev.id !in st.market.orders || ev.newId in st.market.orders || |st.market.orders| >= limits.orders
    ensures Moved(limits, st, ev, Step(limits, st, ev).stats, c)
  {
    hide Arrive, Leave, ReplacedRest, LosesOrder;
  }

  lemma TakeMoves(limits: Limits, st: State, ev: Event, c: Counter)
    requires ev.Execute? || ev.ExecuteAt? || ev.Cancel?
    ensures Moved(limits, st, ev, Step(limits, st, ev).stats, c)
  {
    hide StepAdd, StepReplace, StepDelete, StepCross, Take, LosesOrder, AddFits, NoSlotForAdd, NoLevelForAdd,
         NoSlotForReplace, Duplicate;
    NeedsNoSlot(limits, st.market, ev);
  }

  lemma NeedsNoSlot(limits: Limits, m: Market, ev: Event)
    requires !ev.Add? && !ev.Replace?
    ensures !NoSlotForAdd(limits, m, ev) && !NoLevelForAdd(limits, m, ev) && !NoSlotForReplace(limits, m, ev)
            && !Duplicate(m, ev)
  {
  }

  lemma OtherMoves(limits: Limits, st: State, ev: Event, c: Counter)
    requires ev.Delete? || ev.Trade? || ev.Cross? || ev.Broken?
    ensures Moved(limits, st, ev, Step(limits, st, ev).stats, c)
  {
    hide StepAdd, StepReplace, StepTake, Leave, ClearBook, LosesOrder, AddFits, NoSlotForAdd, NoLevelForAdd,
         NoSlotForReplace, Duplicate;
    NeedsNoSlot(limits, st.market, ev);
  }

  /** Every event moves exactly the counters whose condition it meets in the market it finds. */
  lemma StepCounts(limits: Limits, st: State, ev: Event, c: Counter)
    requires WellFormed(limits, st)
    ensures Moved(limits, st, ev, Step(limits, st, ev).stats, c)
  {
    hide Step, Moved, WellFormed;
    if ev.Add? {
      AddMoves(limits, st, ev, c);
    } else if ev.Replace? {
      ReplaceMoves(limits, st, ev, c);
    } else if ev.Execute? || ev.ExecuteAt? || ev.Cancel? {
      TakeMoves(limits, st, ev, c);
    } else {
      OtherMoves(limits, st, ev, c);
    }
  }

  /** How many events of a run, each in the market it finds, meet the condition of c. */
  function Occurrences(limits: Limits, evs: seq<Event>, c: Counter): nat {
    if evs == [] then 0
    else
      var before, ev := evs[..|evs| - 1], evs[|evs| - 1];
      Occurrences(limits, before, c) + if Counts(limits, Run(limits, INITIAL, before).market, ev, c) then 1 else 0
  }

  /** After any run each counter is the number of its own events. */
  lemma {:induction false} RunCounts(limits: Limits, evs: seq<Event>, c: Counter)
    ensures ValueOf(Run(limits, INITIAL, evs).stats, c) == Occurrences(limits, evs, c)
  {
    hide Step, Counts, WellFormed;
    if evs == [] {
      StartsAtZero(c);
    } else {
      var before := evs[..|evs| - 1];
      RunCounts(limits, before, c);
      InitialIsWellFormed(limits);
      RunKeepsWellFormed(limits, INITIAL, before);
      StepCounts(limits, Run(limits, INITIAL, before), evs[|evs| - 1], c);
    }
  }

  lemma StartsAtZero(c: Counter)
    ensures ValueOf(ZERO_STATS, c) == 0
  {
  }
}
