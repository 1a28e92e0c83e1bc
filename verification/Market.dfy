/** What the engine computes, without pools, lists or tables: the live orders by id, one arrival queue per
    instrument, side and price, and the counters. Capacities enter only as numbers. */
module Markets {
  import opened Types

  datatype Key = Key(loc: u16, side: Side, price: u32)

  /** A resting order. */
  datatype Rest = Rest(loc: u16, side: Side, price: u32, shares: u32, ts: u64, mpid: Mpid) {
    function Place(): Key {
      Key(loc, side, price)
    }
  }

  datatype Market = Market(orders: map<OrderId, Rest>, queues: map<Key, seq<OrderId>>)

  /** Order pool slots, level pool slots, and levels per side that the price table of a book can hold. */
  datatype Limits = Limits(orders: nat, levels: nat, side: nat)

  datatype EngineStats = EngineStats(
    addOrders: int, addOrdersWithMpid: int, orderExecuted: int, orderExecutedWithPrice: int, orderCancel: int,
    orderDelete: int, orderReplace: int, nonCrossTrades: int, crossTrades: int, brokenTrades: int,
    addRejectedPoolExhausted: int, addRejectedLevelPoolExhausted: int, replaceRejectedPoolExhausted: int,
    duplicateAdds: int, locateMismatches: int, levelMissing: int, unknownOrderEvents: int,
    liveOrders: int, liveLevels: int, peakLiveOrders: int, peakLiveLevels: int, poolExhausted: int)

  const ZERO_STATS := EngineStats(0, 0, 0, 0, 0, 0, 0, 0, 0, 0, 0, 0, 0, 0, 0, 0, 0, 0, 0, 0, 0, 0)

  datatype State = State(market: Market, stats: EngineStats)

  const INITIAL := State(Market(map[], map[]), ZERO_STATS)

  /** One decoded message, with every field the engine is handed. */
  datatype Event =
    | Add(loc: u16, id: OrderId, indicator: byte, qty: u32, px: u32, ts: u64, mpid: Mpid, attributed: bool)
    | Execute(loc: u16, id: OrderId, qty: u32, matchNumber: u64)
    | ExecuteAt(loc: u16, id: OrderId, qty: u32, matchNumber: u64, printable: byte, px: u32)
    | Cancel(loc: u16, id: OrderId, qty: u32)
    | Delete(loc: u16, id: OrderId)
    | Replace(loc: u16, id: OrderId, newId: OrderId, qty: u32, px: u32, ts: u64)
    | Trade(loc: u16, qty: u32, px: u32, matchNumber: u64)
    | Cross(loc: u16, kind: byte)
    | Broken(loc: u16, matchNumber: u64)

  // ---- changes of the market ----

  function QueueFor(m: Market, k: Key): seq<OrderId> {
    if k in m.queues then m.queues[k] else []
  }

  /** A new order goes to the end of its queue. */
  function Arrive(m: Market, id: OrderId, r: Rest): Market {
    Market(m.orders[id := r], m.queues[r.Place() := QueueFor(m, r.Place()) + [id]])
  }

  /** An order leaves its queue; a queue left without orders is gone. */
  function Leave(m: Market, id: OrderId): Market
    requires id in m.orders
  {
    var k := m.orders[id].Place();
    var rest := Without(QueueFor(m, k), id);
    Market(m.orders - {id}, if rest == [] then m.queues - {k} else m.queues[k := rest])
  }

  function Shrink(m: Market, id: OrderId, qty: u32): Market
    requires id in m.orders && qty <= m.orders[id].shares
  {
    m.(orders := m.orders[id := m.orders[id].(shares := m.orders[id].shares - qty)])
  }

  function OrdersAt(m: Market, loc: u16): set<OrderId> {
    set id | id in m.orders && m.orders[id].loc == loc
  }

  function LevelsAt(m: Market, loc: u16): set<Key> {
    set k | k in m.queues && k.loc == loc
  }

  function ClearBook(m: Market, loc: u16): Market {
    Market(m.orders - OrdersAt(m, loc), m.queues - LevelsAt(m, loc))
  }

  /** The prices at which a side of an instrument has orders. */
  function SidePrices(m: Market, loc: u16, s: Side): set<u32> {
    set k | k in m.queues && k.loc == loc && k.side == s :: k.price
  }

  // ---- counters ----

  function Max(a: int, b: int): int {
    if a > b then a else b
  }

  /** The live counters after the market has become m, with the peaks following. */
  function Recount(stats: EngineStats, m: Market): EngineStats {
    stats.(liveOrders := |m.orders|, liveLevels := |m.queues|,
           peakLiveOrders := Max(stats.peakLiveOrders, |m.orders|),
               peakLiveLevels := Max(stats.peakLiveLevels, |m.queues|))
  }

  function CountUnknown(stats: EngineStats): EngineStats {
    stats.(unknownOrderEvents := stats.unknownOrderEvents + 1)
  }

  function CountDuplicate(stats: EngineStats): EngineStats {
    CountUnknown(stats.(duplicateAdds := stats.duplicateAdds + 1))
  }

  /** A message about a live order under another instrument's number is counted and then handled at home. */
  function CountLocate(stats: EngineStats, home: u16, loc: u16): EngineStats {
    if home != loc then stats.(locateMismatches := stats.locateMismatches + 1) else stats
  }

  function CountNoLevel(stats: EngineStats): EngineStats {
    stats.(addRejectedLevelPoolExhausted := stats.addRejectedLevelPoolExhausted + 1,
           poolExhausted := stats.poolExhausted + 1)
  }

  // ---- the steps ----

  function AddedRest(ev: Event): Rest
    requires ev.Add?
  {
    Rest(ev.loc, ToSide(ev.indicator), ev.px, ev.qty, ev.ts, if ev.attributed then ev.mpid else NO_MPID)
  }

  function StepAdd(limits: Limits, st: State, ev: Event): State
    requires ev.Add?
  {
    var m, stats := st.market, st.stats;
    var r := AddedRest(ev);
    if ev.id in m.orders then st.(stats := CountDuplicate(stats))
    else if |m.orders| >= limits.orders then
      st.(stats := stats.(addRejectedPoolExhausted := stats.addRejectedPoolExhausted + 1,
                          poolExhausted := stats.poolExhausted + 1))
    else if r.Place() !in m.queues && |m.queues| >= limits.levels then st.(stats := CountNoLevel(stats))
    else
      var m' := Arrive(m, ev.id, r);
      var counted := Recount(stats, m');
      State(m', if ev.attributed then counted.(addOrdersWithMpid := counted.addOrdersWithMpid + 1)
                else counted.(addOrders := counted.addOrders + 1))
  }

  /** Executions and cancels: qty shares leave the order, or all of it when it has no more. */
  function Take(m: Market, id: OrderId, qty: u32): Market
    requires id in m.orders
  {
    if qty < m.orders[id].shares then Shrink(m, id, qty) else Leave(m, id)
  }

  function StepTake(st: State, loc: u16, id: OrderId, qty: u32, accept: EngineStats -> EngineStats): State {
    if id !in st.market.orders then st.(stats := CountUnknown(st.stats))
    else
      var m' := Take(st.market, id, qty);
      State(m', Recount(accept(CountLocate(st.stats, st.market.orders[id].loc, loc)), m'))
  }

  function StepDelete(st: State, loc: u16, id: OrderId): State {
    if id !in st.market.orders then st.(stats := CountUnknown(st.stats))
    else
      var m' := Leave(st.market, id);
      var counted := Recount(CountLocate(st.stats, st.market.orders[id].loc, loc), m');
      State(m', counted.(orderDelete := counted.orderDelete + 1))
  }

  /** Side, attribution and home instrument of the replaced order carry over. */
  function ReplacedRest(r: Rest, ev: Event): Rest
    requires ev.Replace?
  {
    Rest(r.loc, r.side, ev.px, ev.qty, ev.ts, r.mpid)
  }

  /** A replace of a live order, once its instrument number has been dealt with. */
  function ReplaceLive(limits: Limits, st: State, ev: Event): State
    requires ev.Replace? && ev.id in st.market.orders
  {
    var m, stats := st.market, st.stats;
    if ev.newId in m.orders then st.(stats := CountDuplicate(stats))
    else if |m.orders| >= limits.orders then
      st.(stats := stats.(replaceRejectedPoolExhausted := stats.replaceRejectedPoolExhausted + 1,
                          poolExhausted := stats.poolExhausted + 1))
    else
      var m1, r := Leave(m, ev.id), ReplacedRest(m.orders[ev.id], ev);
      if r.Place() !in m1.queues && |m1.queues| >= limits.levels then
        State(m1, CountNoLevel(Recount(stats, m1)))
      else
        var m2 := Arrive(m1, ev.newId, r);
        var counted := Recount(stats, m2);
        State(m2, counted.(orderReplace := counted.orderReplace + 1))
  }

  function StepReplace(limits: Limits, st: State, ev: Event): State
    requires ev.Replace?
  {
    if ev.id !in st.market.orders then st.(stats := CountUnknown(st.stats))
    else ReplaceLive(limits, st.(stats := CountLocate(st.stats, st.market.orders[ev.id].loc, ev.loc)), ev)
  }

  function StepCross(st: State, loc: u16, kind: byte): State {
    var stats := st.stats.(crossTrades := st.stats.crossTrades + 1);
    if kind != 'C' as int then st.(stats := stats)
    else State(ClearBook(st.market, loc), Recount(stats, ClearBook(st.market, loc)))
  }

  function Step(limits: Limits, st: State, ev: Event): State {
    match ev
    case Add(_, _, _, _, _, _, _, _) => StepAdd(limits, st, ev)
    case Execute(loc, id, qty, _) =>
      StepTake(st, loc, id, qty, (s: EngineStats) => s.(orderExecuted := s.orderExecuted + 1))
    case ExecuteAt(loc, id, qty, _, _, _) =>
      StepTake(st, loc, id, qty, (s: EngineStats) => s.(orderExecutedWithPrice := s.orderExecutedWithPrice + 1))
    case Cancel(loc, id, qty) =>
      StepTake(st, loc, id, qty, (s: EngineStats) => s.(orderCancel := s.orderCancel + 1))
    case Delete(loc, id) => StepDelete(st, loc, id)
    case Replace(_, _, _, _, _, _) => StepReplace(limits, st, ev)
    case Trade(_, _, _, _) => st.(stats := st.stats.(nonCrossTrades := st.stats.nonCrossTrades + 1))
    case Cross(loc, kind) => StepCross(st, loc, kind)
    case Broken(_, _) => st.(stats := st.stats.(brokenTrades := st.stats.brokenTrades + 1))
  }

  function Run(limits: Limits, st: State, evs: seq<Event>): State {
    if evs == [] then st else Step(limits, Run(limits, st, evs[..|evs| - 1]), evs[|evs| - 1])
  }

  // ---- what the code needs of its input ----

  /** A level for key k exists, or cannot be opened for want of a slot, or fits its side's price table. */
  predicate RoomFor(limits: Limits, m: Market, k: Key) {
    && k.price != NO_PRICE
    && (k in m.queues || |m.queues| >= limits.levels || |SidePrices(m, k.loc, k.side)| < limits.side)
  }

  /** An event that gets as far as looking up a level for a new order finds the sentinel price unused and the
      price table of its side not full. */
  predicate Admissible(limits: Limits, m: Market, ev: Event) {
    match ev
    case Add(_, id, _, _, _, _, _, _) =>
      id !in m.orders && |m.orders| < limits.orders ==> RoomFor(limits, m, AddedRest(ev).Place())
    case Replace(_, id, newId, _, _, _) =>
      id in m.orders && newId !in m.orders && |m.orders| < limits.orders ==>
        RoomFor(limits, Leave(m, id), ReplacedRest(m.orders[id], ev).Place())
    case _ => true
  }

  predicate AdmissibleRun(limits: Limits, st: State, evs: seq<Event>) {
    evs == [] || (AdmissibleRun(limits, st, evs[..|evs| - 1])
                  && Admissible(limits, Run(limits, st, evs[..|evs| - 1]).market, evs[|evs| - 1]))
  }

  // ---- the invariant ----

  /** The queues hold exactly the live orders, each once, in the queue of its own instrument, side and price,
      and no queue is empty. */
  ghost predicate Consistent(m: Market) {
    && (forall k :: k in m.queues ==> m.queues[k] != [] && Distinct(m.queues[k]))
    && (forall k, id :: k in m.queues && id in m.queues[k] ==> id in m.orders && m.orders[id].Place() == k)
    && (forall id :: id in m.orders ==> m.orders[id].Place() in m.queues && id in m.queues[m.orders[id].Place()])
  }

  ghost predicate WellFormed(limits: Limits, st: State) {
    && Consistent(st.market)
    && |st.market.orders| <= limits.orders && |st.market.queues| <= limits.levels
    && st.stats.liveOrders == |st.market.orders| && st.stats.liveLevels == |st.market.queues|
    && st.stats.peakLiveOrders >= st.stats.liveOrders && st.stats.peakLiveLevels >= st.stats.liveLevels
  }
}
