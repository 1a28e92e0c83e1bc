/** How the market answers each event: what is counted, what is refused, and what a refusal leaves behind. */
module MarketEvents {
  import opened Types
  import opened Markets
  import opened MarketInvariants

  // ---- accounting ----

  /** The events that add, take from, remove or replace an order. */
  predicate OrderEvent(ev: Event) {
    ev.Add? || ev.Execute? || ev.ExecuteAt? || ev.Cancel? || ev.Delete? || ev.Replace?
  }

  function AcceptedEvents(s: EngineStats): int {
    s.addOrders + s.addOrdersWithMpid + s.orderExecuted + s.orderExecutedWithPrice
    + s.orderCancel + s.orderDelete + s.orderReplace
  }

  function OrderEvents(evs: seq<Event>): nat {
    if evs == [] then 0 else OrderEvents(evs[..|evs| - 1]) + if OrderEvent(evs[|evs| - 1]) then 1 else 0
  }

  /** What one event adds to the counters: more order events in all, all of them accepted, unknown or refused for
      want of a slot. */
  predicate Counted(s: EngineStats, s': EngineStats, more: nat) {
    && AcceptedEvents(s') + s'.unknownOrderEvents + s'.poolExhausted
       == AcceptedEvents(s) + s.unknownOrderEvents + s.poolExhausted + more
    && s'.levelMissing == s.levelMissing
    && s'.poolExhausted - s.poolExhausted
       == s'.addRejectedPoolExhausted - s.addRejectedPoolExhausted
          + s'.addRejectedLevelPoolExhausted - s.addRejectedLevelPoolExhausted
          + s'.replaceRejectedPoolExhausted - s.replaceRejectedPoolExhausted
  }

  lemma AddAccounts(limits: Limits, st: State, ev: Event)
    requires ev.Add?
    ensures Counted(st.stats, StepAdd(limits, st, ev).stats, 1)
  {
    hide Arrive, AddedRest;
  }

  lemma ReplaceAccounts(limits: Limits, st: State, ev: Event)
    requires ev.Replace?
    ensures Counted(st.stats, StepReplace(limits, st, ev).stats, 1)
  {
    hide Arrive, Leave, ReplacedRest;
  }

  /** Every order event is counted exactly once: accepted, unknown or refused for want of a slot. */
  lemma StepAccounts(limits: Limits, st: State, ev: Event)
    ensures Counted(st.stats, Step(limits, st, ev).stats, if OrderEvent(ev) then 1 else 0)
  {
    hide StepAdd, StepReplace, Leave, Take, ClearBook;
    if ev.Add? {
      AddAccounts(limits, st, ev);
    } else if ev.Replace? {
      ReplaceAccounts(limits, st, ev);
    }
  }

  /** Over any run from the empty market. */
  lemma {:induction false} RunAccounts(limits: Limits, evs: seq<Event>)
    ensures var s := Run(limits, INITIAL, evs).stats;
            && OrderEvents(evs) == AcceptedEvents(s) + s.unknownOrderEvents + s.poolExhausted
            && s.levelMissing == 0
            && s.poolExhausted
               == s.addRejectedPoolExhausted + s.addRejectedLevelPoolExhausted + s.replaceRejectedPoolExhausted
  {
    if evs != [] {
      RunAccounts(limits, evs[..|evs| - 1]);
      StepAccounts(limits, Run(limits, INITIAL, evs[..|evs| - 1]), evs[|evs| - 1]);
    }
  }

  // ---- wrong instrument numbers ----

  /** The same event under another instrument number. */
  function Relocated(ev: Event, loc: u16): Event {
    match ev
    case Execute(_, id, qty, n) => Execute(loc, id, qty, n)
    case ExecuteAt(_, id, qty, n, p, px) => ExecuteAt(loc, id, qty, n, p, px)
    case Cancel(_, id, qty) => Cancel(loc, id, qty)
    case Delete(_, id) => Delete(loc, id)
    case Replace(_, id, newId, qty, px, ts) => Replace(loc, id, newId, qty, px, ts)
    case _ => ev
  }

  function WithMismatch(st: State): State {
    st.(stats := st.stats.(locateMismatches := st.stats.locateMismatches + 1))
  }

  /** An event about a live order does the same under any instrument number; a wrong one is counted. */
  lemma LocateDoesNotMatter(limits: Limits, st: State, ev: Event)
    requires ev.Execute? || ev.ExecuteAt? || ev.Cancel? || ev.Delete? || ev.Replace?
    requires ev.id in st.market.orders
    ensures var home := st.market.orders[ev.id].loc;
            Step(limits, st, ev)
            == if ev.loc == home then Step(limits, st, Relocated(ev, home))
                else WithMismatch(Step(limits, st, Relocated(ev, home)))
  {
    hide Arrive, Leave, Take;
  }

  // ---- refusals ----

  /** A replace that is past the checks on ids and order slots, and then finds no level for its new price. */
  predicate LosesOrder(limits: Limits, m: Market, ev: Event)
    requires ev.Replace?
  {
    && ev.id in m.orders && ev.newId !in m.orders && |m.orders| < limits.orders
    && var r := m.orders[ev.id];
    && r.Place() in m.queues && |m.queues[r.Place()]| > 1
    && ReplacedRest(r, ev).Place() !in m.queues
    && |m.queues| >= limits.levels
  }

  predicate Accepts(limits: Limits, st: State, ev: Event) {
    AcceptedEvents(Step(limits, st, ev).stats) > AcceptedEvents(st.stats)
  }

  /** The counters call refused events those that leave the book unchanged. They do, except for the replace that
      loses its order. */
  lemma RefusalChangesNothing(limits: Limits, st: State, ev: Event)
    requires WellFormed(limits, st) && OrderEvent(ev) && !Accepts(limits, st, ev)
    ensures Step(limits, st, ev).market == st.market <==> !(ev.Replace? && LosesOrder(limits, st.market, ev))
  {
    hide Arrive, Take, Consistent, LosesOrder;
    var m := st.market;
    if ev.Replace? && ev.id in m.orders && ev.newId !in m.orders && |m.orders| < limits.orders {
      ReplaceFailsWhen(limits, m, ev);
      assert ev.id !in Leave(m, ev.id).orders;
    } else if ev.Replace? {
      NotPastTheChecks(limits, m, ev);
    }
  }

  lemma NotPastTheChecks(limits: Limits, m: Market, ev: Event)
    requires ev.Replace?
    requires ev.id !in m.orders || ev.newId in m.orders || |m.orders| >= limits.orders
    ensures !LosesOrder(limits, m, ev)
  {
  }

  /** After the old order has left, a level for the new price can be missing only if the level pool was full, the
      old order was not alone in its level, and no level had the new price. */
  lemma ReplaceFailsWhen(limits: Limits, m: Market, ev: Event)
    requires Consistent(m) && ev.Replace? && ev.id in m.orders && ev.newId !in m.orders && |m.orders| < limits.orders
    requires |m.queues| <= limits.levels
    ensures var m1, k := Leave(m, ev.id), ReplacedRest(m.orders[ev.id], ev).Place();
            k !in m1.queues && |m1.queues| >= limits.levels <==> LosesOrder(limits, m, ev)
  {
    hide Consistent;
    QueueHolds(m, ev.id);
    LeaveKeeps(m, ev.id);
    SoleMember(m.queues[m.orders[ev.id].Place()], ev.id);
  }

  /** The three outcomes of replacing a live order, each exactly when its condition on the state before holds. */
  lemma ReplaceOutcomes(limits: Limits, st: State, ev: Event)
    requires WellFormed(limits, st) && ev.Replace? && ev.id in st.market.orders
    ensures var m, m' := st.market, Step(limits, st, ev).market;
            var r := m.orders[ev.id];
            var r' := Rest(r.loc, r.side, ev.px, ev.qty, ev.ts, r.mpid);
            && (m' == m <==> ev.newId in m.orders || |m.orders| >= limits.orders)
            && (m' == Leave(m, ev.id) <==> LosesOrder(limits, m, ev))
            && (m' != m && m' != Leave(m, ev.id) ==>
                  && m'.orders == (m.orders - {ev.id})[ev.newId := r']
                  && r'.Place() in m'.queues
                  && m'.queues[r'.Place()] == QueueFor(Leave(m, ev.id), r'.Place()) + [ev.newId])
            && (Accepts(limits, st, ev) <==> m' != m && m' != Leave(m, ev.id))
  {
    hide Consistent, Without;
    var m := st.market;
    LeaveOrders(m, ev.id);
    if ev.newId !in m.orders && |m.orders| < limits.orders {
      ReplaceFailsWhen(limits, m, ev);
      var m2 := Arrive(Leave(m, ev.id), ev.newId, ReplacedRest(m.orders[ev.id], ev));
      assert ev.newId in m2.orders && ev.newId !in Leave(m, ev.id).orders;
      assert ev.id in m.orders && ev.id !in Leave(m, ev.id).orders && ev.newId !in m.orders;
    }
  }

  // ---- closing crosses ----

  /** A closing cross leaves nothing of its instrument and everything of the others. */
  lemma CrossClearsOneInstrument(limits: Limits, st: State, loc: u16)
    requires WellFormed(limits, st)
    ensures var m, m' := st.market, Step(limits, st, Cross(loc, 'C' as int)).market;
            && (forall id :: id in m'.orders <==> id in m.orders && m.orders[id].loc != loc)
            && (forall id :: id in m'.orders ==> m'.orders[id] == m.orders[id])
            && (forall k :: k in m'.queues <==> k in m.queues && k.loc != loc)
            && (forall k :: k in m'.queues ==> m'.queues[k] == m.queues[k])
  {
    hide Consistent, StepAdd, StepTake, StepDelete, StepReplace, Recount;
  }

  /** The events that can change an order: all but trades, broken trades and crosses other than the closing one. */
  predicate Booked(ev: Event) {
    OrderEvent(ev) || (ev.Cross? && ev.kind == 'C' as int)
  }

  function OnlyBooked(evs: seq<Event>): seq<Event> {
    if evs == [] then []
    else OnlyBooked(evs[..|evs| - 1]) + if Booked(evs[|evs| - 1]) then [evs[|evs| - 1]] else []
  }

  /** What a step does to the market does not depend on the counters. */
  lemma CountersDoNotMatter(limits: Limits, a: State, b: State, ev: Event)
    requires a.market == b.market
    ensures Step(limits, a, ev).market == Step(limits, b, ev).market
  {
    hide Arrive, Leave, Take, ClearBook, Recount;
  }

  /** Opening and halt crosses, trades and broken trades inform only: taking all of them out of any run leaves the
      market it ends in as it was. */
  lemma {:induction false} OthersInform(limits: Limits, st: State, evs: seq<Event>)
    ensures Run(limits, st, OnlyBooked(evs)).market == Run(limits, st, evs).market
  {
    hide Step;
    if evs != [] {
      var before, ev := evs[..|evs| - 1], evs[|evs| - 1];
      var a, b := Run(limits, st, OnlyBooked(before)), Run(limits, st, before);
      OthersInform(limits, st, before);
      if Booked(ev) {
        assert OnlyBooked(evs)[..|OnlyBooked(evs)| - 1] == OnlyBooked(before);
        CountersDoNotMatter(limits, a, b, ev);
      } else {
        assert OnlyBooked(evs) == OnlyBooked(before);
        InformationalStep(limits, b, ev);
      }
    }
  }

  lemma InformationalStep(limits: Limits, st: State, ev: Event)
    requires !Booked(ev)
    ensures Step(limits, st, ev).market == st.market
  {
  }

  function Crosses(locs: seq<u16>): seq<Event> {
    seq(|locs|, i requires 0 <= i < |locs| => Cross(locs[i], 'C' as int))
  }

  lemma {:induction false} CrossesKeepOthers(limits: Limits, st: State, locs: seq<u16>)
    requires WellFormed(limits, st)
    ensures var m, m' := st.market, Run(limits, st, Crosses(locs)).market;
            && (forall id :: id in m'.orders <==> id in m.orders && m.orders[id].loc !in locs)
            && (forall id :: id in m'.orders ==> m'.orders[id] == m.orders[id])
  {
    hide Step, WellFormed;
    if locs != [] {
      var before, last := locs[..|locs| - 1], locs[|locs| - 1];
      assert locs == before + [last];
      assert Crosses(locs)[..|locs| - 1] == Crosses(before);
      CrossesKeepOthers(limits, st, before);
      RunKeepsWellFormed(limits, st, Crosses(before));
      CrossClearsOneInstrument(limits, Run(limits, st, Crosses(before)), last);
    }
  }

  /** Closing every instrument that has orders leaves no order, no level and all slots free. */
  lemma CrossesDrain(limits: Limits, st: State, locs: seq<u16>)
    requires WellFormed(limits, st) && forall id :: id in st.market.orders ==> st.market.orders[id].loc in locs
    ensures var st' := Run(limits, st, Crosses(locs));
            st'.market == Market(map[], map[]) && st'.stats.liveOrders == 0 && st'.stats.liveLevels == 0
  {
    hide Run, WellFormed;
    CrossesKeepOthers(limits, st, locs);
    RunKeepsWellFormed(limits, st, Crosses(locs));
    NoOrdersNoQueues(limits, Run(limits, st, Crosses(locs)));
  }

  lemma NoOrdersNoQueues(limits: Limits, st: State)
    requires WellFormed(limits, st)
    ensures (forall id :: id !in st.market.orders) ==>
              st.market == Market(map[], map[]) && st.stats.liveOrders == 0 && st.stats.liveLevels == 0
  {
    var m := st.market;
    if m.queues != map[] {
      var k :| k in m.queues;
      FrontIsLive(m, k);
    }
    assert (forall id :: id !in m.orders) ==> m.orders == map[];
  }

  lemma FrontIsLive(m: Market, k: Key)
    requires Consistent(m) && k in m.queues
    ensures m.queues[k] != [] && m.queues[k][0] in m.orders
  {
    var id := m.queues[k][0];
    assert id in m.queues[k];
  }

  // ---- peaks ----

  /** Every prefix of the run has had at most so many live orders and levels. */
  predicate PeakBound(limits: Limits, evs: seq<Event>, orders: int, levels: int) {
    forall n :: 0 <= n <= |evs| ==>
      |Run(limits, INITIAL, evs[..n]).market.orders| <= orders
          && |Run(limits, INITIAL, evs[..n]).market.queues| <= levels
  }

  /** Some prefix of the run has had exactly so many. */
  predicate OrdersReached(limits: Limits, evs: seq<Event>, orders: int) {
    exists n :: 0 <= n <= |evs| && |Run(limits, INITIAL, evs[..n]).market.orders| == orders
  }

  predicate LevelsReached(limits: Limits, evs: seq<Event>, levels: int) {
    exists n :: 0 <= n <= |evs| && |Run(limits, INITIAL, evs[..n]).market.queues| == levels
  }

  /** From the empty market, the peaks are the largest live counts any prefix of the run has had. */
  lemma {:induction false} PeaksAreMaxima(limits: Limits, evs: seq<Event>)
    ensures var s := Run(limits, INITIAL, evs).stats;
            && PeakBound(limits, evs, s.peakLiveOrders, s.peakLiveLevels)
            && OrdersReached(limits, evs, s.peakLiveOrders) && LevelsReached(limits, evs, s.peakLiveLevels)
  {
    hide PeakBound, OrdersReached, LevelsReached, Step, WellFormed;
    if evs == [] {
      NoPeaks(limits);
    } else {
      var before := evs[..|evs| - 1];
      PeaksAreMaxima(limits, before);
      InitialIsWellFormed(limits);
      RunKeepsWellFormed(limits, INITIAL, before);
      PeakStep(limits, Run(limits, INITIAL, before), evs[|evs| - 1]);
      PeaksExtend(limits, evs);
    }
  }

  lemma NoPeaks(limits: Limits)
    ensures PeakBound(limits, [], 0, 0) && OrdersReached(limits, [], 0) && LevelsReached(limits, [], 0)
  {
    var none: seq<Event> := [];
    assert none[..0] == [] && |Run(limits, INITIAL, none[..0]).market.orders| == 0
           && |Run(limits, INITIAL, none[..0]).market.queues| == 0;
  }

  lemma PeaksExtend(limits: Limits, evs: seq<Event>)
    requires evs != []
    requires var before := evs[..|evs| - 1];
             var s, st' := Run(limits, INITIAL, before).stats, Run(limits, INITIAL, evs);
             && PeakBound(limits, before, s.peakLiveOrders, s.peakLiveLevels)
             && OrdersReached(limits, before, s.peakLiveOrders) && LevelsReached(limits, before, s.peakLiveLevels)
             && st'.stats.peakLiveOrders == Max(s.peakLiveOrders, |st'.market.orders|)
             && st'.stats.peakLiveLevels == Max(s.peakLiveLevels, |st'.market.queues|)
    ensures var s := Run(limits, INITIAL, evs).stats;
            && PeakBound(limits, evs, s.peakLiveOrders, s.peakLiveLevels)
            && OrdersReached(limits, evs, s.peakLiveOrders) && LevelsReached(limits, evs, s.peakLiveLevels)
  {
    hide Run;
    var before := evs[..|evs| - 1];
    var s := Run(limits, INITIAL, before).stats;
    assert evs[..|evs|] == evs;
    assert forall n :: 0 <= n <= |before| ==> evs[..n] == before[..n];
    var i :| 0 <= i <= |before| && |Run(limits, INITIAL, before[..i]).market.orders| == s.peakLiveOrders;
    var j :| 0 <= j <= |before| && |Run(limits, INITIAL, before[..j]).market.queues| == s.peakLiveLevels;
    assert evs[..i] == before[..i] && evs[..j] == before[..j];
  }

  lemma PeakStep(limits: Limits, st: State, ev: Event)
    requires WellFormed(limits, st)
    ensures var st' := Step(limits, st, ev);
            && st'.stats.peakLiveOrders == Max(st.stats.peakLiveOrders, |st'.market.orders|)
            && st'.stats.peakLiveLevels == Max(st.stats.peakLiveLevels, |st'.market.queues|)
  {
    hide Consistent, Arrive, Leave, Take, ClearBook;
    if ev.Replace? && ev.id in st.market.orders {
      LeaveKeeps(st.market, ev.id);
    }
  }

  // ---- assumptions ----

  /** With no more level slots than a price table has room for, every event at a real price is admissible. */
  lemma SmallPoolIsEnough(limits: Limits, st: State, ev: Event)
    requires WellFormed(limits, st) && limits.levels <= limits.side
    requires ev.Add? || ev.Replace? ==> ev.px != NO_PRICE
    ensures Admissible(limits, st.market, ev)
  {
    hide Consistent, Leave;
    var m := st.market;
    match ev
    case Add(_, _, _, _, _, _, _, _) => SideFitsPool(m, AddedRest(ev).Place());
    case Replace(_, id, _, _, _, _) =>
      if id in m.orders {
        LeaveKeeps(m, id);
        SideFitsPool(Leave(m, id), ReplacedRest(m.orders[id], ev).Place());
      }
    case _ =>
  }

  lemma SideFitsPool(m: Market, k: Key)
    ensures |SidePrices(m, k.loc, k.side)| <= |m.queues|
  {
    var here := set x | x in m.queues && x.loc == k.loc && x.side == k.side;
    PricesPerKey(here, k.loc, k.side, SidePrices(m, k.loc, k.side));
    SubsetCardinality(here, m.queues.Keys);
  }

  lemma {:induction false} PricesPerKey(keys: set<Key>, loc: u16, side: Side, prices: set<u32>)
    requires forall k :: k in keys ==> k.loc == loc && k.side == side
    requires prices == set k | k in keys :: k.price
    ensures |prices| == |keys|
    decreases keys
  {
    if keys == {} {
      assert prices == {};
    } else {
      var k :| k in keys;
      assert forall x :: x in keys && x.price == k.price ==> x == k;
      assert prices - {k.price} == set x | x in keys - {k} :: x.price;
      PricesPerKey(keys - {k}, loc, side, prices - {k.price});
    }
  }

  /** And so is every run. */
  lemma {:induction false} SmallPoolRuns(limits: Limits, evs: seq<Event>)
    requires limits.levels <= limits.side
    requires forall i :: 0 <= i < |evs| && (evs[i].Add? || evs[i].Replace?) ==> evs[i].px != NO_PRICE
    ensures AdmissibleRun(limits, INITIAL, evs)
  {
    hide Run, Admissible, WellFormed;
    if evs != [] {
      var before := evs[..|evs| - 1];
      SmallPoolRuns(limits, before);
      InitialIsWellFormed(limits);
      RunKeepsWellFormed(limits, INITIAL, before);
      SmallPoolIsEnough(limits, Run(limits, INITIAL, before), evs[|evs| - 1]);
    }
  }

  predicate NoneEmpty(orders: map<OrderId, Rest>) {
    forall id :: id in orders ==> orders[id].shares > 0
  }

  lemma TakeKeepsNoneEmpty(m: Market, id: OrderId, qty: u32)
    requires NoneEmpty(m.orders) && id in m.orders
    ensures NoneEmpty(Take(m, id, qty).orders)
  {
  }

  lemma ReplaceKeepsNoneEmpty(limits: Limits, st: State, ev: Event)
    requires NoneEmpty(st.market.orders) && ev.Replace? && ev.qty > 0
    ensures NoneEmpty(StepReplace(limits, st, ev).market.orders)
  {
    hide Leave, QueueFor, Recount;
    if ev.id in st.market.orders {
      LeaveOrders(st.market, ev.id);
    }
  }

  lemma StepKeepsNoneEmpty(limits: Limits, st: State, ev: Event)
    requires NoneEmpty(st.market.orders) && (ev.Add? || ev.Replace? ==> ev.qty > 0)
    ensures NoneEmpty(Step(limits, st, ev).market.orders)
  {
    hide Leave, QueueFor, Take, Recount, StepReplace;
    var m := st.market;
    match ev
    case Add(_, _, _, _, _, _, _, _) =>
    case Execute(_, id, qty, _) => if id in m.orders { TakeKeepsNoneEmpty(m, id, qty); }
    case ExecuteAt(_, id, qty, _, _, _) => if id in m.orders { TakeKeepsNoneEmpty(m, id, qty); }
    case Cancel(_, id, qty) => if id in m.orders { TakeKeepsNoneEmpty(m, id, qty); }
    case Delete(_, id) => if id in m.orders { LeaveOrders(m, id); }
    case Replace(_, _, _, _, _, _) => ReplaceKeepsNoneEmpty(limits, st, ev);
    case _ =>
  }

  /** If no add or replace brings zero shares, no live order has zero shares. */
  lemma {:induction false} NoEmptyOrders(limits: Limits, evs: seq<Event>)
    requires forall i :: 0 <= i < |evs| && (evs[i].Add? || evs[i].Replace?) ==> evs[i].qty > 0
    ensures NoneEmpty(Run(limits, INITIAL, evs).market.orders)
  {
    hide Step, NoneEmpty;
    if evs == [] {
      NothingIsEmpty();
    } else {
      NoEmptyOrders(limits, evs[..|evs| - 1]);
      StepKeepsNoneEmpty(limits, Run(limits, INITIAL, evs[..|evs| - 1]), evs[|evs| - 1]);
    }
  }

  lemma NothingIsEmpty()
    ensures NoneEmpty(INITIAL.market.orders)
  {
  }

  const FIRST := Add(7, 1, 'B' as int, 100, 50, 0, NO_MPID, false)
  const SECOND := Add(7, 2, 'B' as int, 100, 50, 1, NO_MPID, false)
  const MOVE := Replace(7, 1, 3, 100, 51, 2)
  const ONE_LEVEL := Limits(3, 1, 1)

  /** The comment on on_order_replace says a failure leaves the old order untouched. With one level slot and two
      orders in the level, moving one of them to a new price removes it and adds nothing. */
  lemma ReplaceCanLoseItsOrder()
    ensures AdmissibleRun(ONE_LEVEL, INITIAL, [FIRST, SECOND, MOVE])
    ensures var m := Run(ONE_LEVEL, INITIAL, [FIRST, SECOND]).market;
            var m' := Run(ONE_LEVEL, INITIAL, [FIRST, SECOND, MOVE]).market;
            LosesOrder(ONE_LEVEL, m, MOVE) && m.orders.Keys == {1, 2} && m'.orders.Keys == {2}
  {
    TwoInOneLevel();
    var m := Run(ONE_LEVEL, INITIAL, [FIRST, SECOND]).market;
    var one: OrderId, two: OrderId := 1, 2;
    assert [FIRST, SECOND, MOVE][..2] == [FIRST, SECOND];
    assert Without([one, two], one) == [two];
    assert Leave(m, one).queues == map[Key(7, Buy, 50) := [two]];
  }

  lemma TwoInOneLevel()
    ensures var first: OrderId, second: OrderId := 1, 2;
            Run(ONE_LEVEL, INITIAL, [FIRST, SECOND]).market
            == Market(map[first := AddedRest(FIRST), second := AddedRest(SECOND)],
                map[Key(7, Buy, 50) := [first, second]])
    ensures AdmissibleRun(ONE_LEVEL, INITIAL, [FIRST, SECOND])
  {
    OneInOneLevel();
    var first: OrderId, second: OrderId := 1, 2;
    var m := Run(ONE_LEVEL, INITIAL, [FIRST]).market;
    assert [FIRST, SECOND][..1] == [FIRST];
    assert AddedRest(SECOND).Place() == Key(7, Buy, 50);
    assert QueueFor(m, Key(7, Buy, 50)) + [second] == [first, second];
  }

  lemma OneInOneLevel()
    ensures var first: OrderId := 1;
            Run(ONE_LEVEL, INITIAL, [FIRST]).market
                == Market(map[first := AddedRest(FIRST)], map[Key(7, Buy, 50) := [first]])
    ensures AdmissibleRun(ONE_LEVEL, INITIAL, [FIRST])
  {
    var first: OrderId := 1;
    assert [FIRST][..0] == [];
    assert AddedRest(FIRST).Place() == Key(7, Buy, 50);
    assert QueueFor(INITIAL.market, Key(7, Buy, 50)) + [first] == [first];
    assert Run(ONE_LEVEL, INITIAL, []) == INITIAL;
    assert SidePrices(INITIAL.market, 7, Buy) == {};
  }
}
