/** Which calls of log end up in the ring: in every interleaving, those that found room, in the order of the calls. */
module LoggerCalls {
  import opened Loggers
  import opened LoggerRuns

  // ---- the calls of a run, read off its actions ----

  /** The records of the calls that reach the ring's counters: those at or above the threshold in force, made while
      no other call is in progress. */
  function Offered<R>(s: Log<R>, threshold: nat, actions: seq<Action<R>>): seq<R>
    requires s.ring != []
    decreases actions
  {
    if actions == [] then []
    else
      var a := actions[0];
      var next := Act(s, a);
      var rest := Offered(next, if a.SetMinLevel? then a.level else threshold, actions[1..]);
      if a.Call? && s.producer.Quiet? && a.level >= threshold then [a.record] + rest else rest
  }

  /** For each of these calls that gets as far as loading tail, whether a slot was free at that moment. */
  function FoundRoom<R>(s: Log<R>, actions: seq<Action<R>>): seq<bool>
    requires s.ring != []
    decreases actions
  {
    if actions == [] then []
    else
      var rest := FoundRoom(Act(s, actions[0]), actions[1..]);
      if actions[0].Produce? && s.producer.HeadLoaded? then [s.head < s.tail + |s.ring|] + rest else rest
  }

  /** The records whose flag is raised. */
  function Kept<R>(records: seq<R>, flags: seq<bool>): seq<R> {
    if records == [] || flags == [] then []
    else (if flags[0] then [records[0]] else []) + Kept(records[1..], flags[1..])
  }

  function Lowered(flags: seq<bool>): nat {
    if flags == [] then 0 else (if flags[0] then 0 else 1) + Lowered(flags[1..])
  }

  // ---- where the state has them ----

  /** The record of a call that has not loaded tail. */
  function Undecided<R>(p: Producer<R>): seq<R> {
    match p
    case Called(r) => [r]
    case HeadLoaded(r, _) => [r]
    case _ => []
  }

  /** The record of a call that found a free slot and has not stored head. */
  function Passing<R>(p: Producer<R>, capacity: nat): seq<R> {
    match p
    case TailLoaded(r, h, t) => if h - t < capacity then [r] else []
    case Writing(r, _) => [r]
    case Written(r, _) => [r]
    case _ => []
  }

  /** A call that found no free slot and has not been counted as dropped. */
  function Dropping<R>(p: Producer<R>, capacity: nat): nat {
    if p.TailLoaded? && p.h - p.t >= capacity then 1 else 0
  }

  function Taken<R>(s: Log<R>): seq<R> {
    s.accepted + Passing(s.producer, |s.ring|)
  }

  function Lost<R>(s: Log<R>): nat {
    s.dropped + Dropping(s.producer, |s.ring|)
  }

  /** Calls off are offered and flags room raised or lowered on the way from s to s'. */
  ghost predicate Explains<R>(s: Log<R>, s': Log<R>, off: seq<R>, room: seq<bool>) {
    var calls := Undecided(s.producer) + off;
    && s'.attempts == s.attempts + |off|
    && |calls| == |room| + |Undecided(s'.producer)| && calls[|room|..] == Undecided(s'.producer)
    && Taken(s') == Taken(s) + Kept(calls, room)
    && Lost(s') == Lost(s) + Lowered(room)
  }

  /** One step moves a call on: from offered to undecided, or from there to taken or lost. */
  ghost predicate MovesOn<R>(s: Log<R>, s': Log<R>, off: seq<R>, room: seq<bool>) {
    && s'.attempts == s.attempts + |off|
    && (room == [] ==> Undecided(s'.producer) == Undecided(s.producer) + off && Taken(s') == Taken(s)
                       && Lost(s') == Lost(s))
    && (room != [] ==> |Undecided(s.producer)| == 1 == |room| && off == [] && Undecided(s'.producer) == []
                       && Taken(s') == Taken(s) + Kept(Undecided(s.producer), room)
                       && Lost(s') == Lost(s) + Lowered(room))
  }

  lemma CallStep<R>(s: Log<R>, threshold: nat, a: Action<R>)
    requires Inv(s) && s.minLevel == threshold
    ensures MovesOn(s, Act(s, a), Offered(s, threshold, [a]), FoundRoom(s, [a]))
    ensures Act(s, a).minLevel == if a.SetMinLevel? then a.level else threshold
  {
    hide Inv, MovesOn, Offered, FoundRoom;
    InvRing(s);
    OneAction(s, threshold, a);
    match a
    case Produce => ProduceStep(s);
    case _ => OtherStep(s, threshold, a);
  }

  lemma OneAction<R>(s: Log<R>, threshold: nat, a: Action<R>)
    requires s.ring != []
    ensures Offered(s, threshold, [a])
         == if a.Call? && s.producer.Quiet? && a.level >= threshold then [a.record] else []
    ensures FoundRoom(s, [a]) == if a.Produce? && s.producer.HeadLoaded? then [s.head < s.tail + |s.ring|] else []
  {
    assert [a][1..] == [];
  }

  lemma ProduceStep<R>(s: Log<R>)
    requires Inv(s)
    ensures MovesOn(s, DoProduce(s), [], if s.producer.HeadLoaded? then [s.head < s.tail + |s.ring|] else [])
    ensures DoProduce(s).minLevel == s.minLevel
  {
    hide RingHolds, ConsumerOk, ControlOk;
    if s.producer.HeadLoaded? {
      KeptOne(s.producer.record, s.head < s.tail + |s.ring|);
    }
    assert Taken(DoProduce(s)) == if s.producer.HeadLoaded? && s.head < s.tail + |s.ring|
                                  then Taken(s) + [s.producer.record] else Taken(s);
  }

  lemma KeptOne<R>(r: R, flag: bool)
    ensures Kept([r], [flag]) == (if flag then [r] else []) && Lowered([flag]) == if flag then 0 else 1
  {
    assert [r][1..] == [] && [flag][1..] == [];
  }

  lemma OtherStep<R>(s: Log<R>, threshold: nat, a: Action<R>)
    requires Inv(s) && s.minLevel == threshold && !a.Produce?
    ensures MovesOn(s, Act(s, a), if a.Call? && s.producer.Quiet? && a.level >= threshold then [a.record] else [], [])
    ensures Act(s, a).minLevel == if a.SetMinLevel? then a.level else threshold
  {
    hide RingHolds, ProducerOk, ConsumerOk, ControlOk;
  }

  lemma OneStep<R>(s: Log<R>, threshold: nat, actions: seq<Action<R>>)
    requires s.ring != [] && actions != []
    ensures var a := actions[0];
            var t' := if a.SetMinLevel? then a.level else threshold;
            && Offered(s, threshold, actions) == Offered(s, threshold, [a]) + Offered(Act(s, a), t', actions[1..])
            && FoundRoom(s, actions) == FoundRoom(s, [a]) + FoundRoom(Act(s, a), actions[1..])
  {
    assert [actions[0]][1..] == [];
  }

  /** The same for records and flags alone: one step and then the rest of the run. */
  lemma StepThenRest<R>(p: seq<R>, off: seq<R>, room: seq<bool>, p': seq<R>, off': seq<R>, room': seq<bool>,
                        left: seq<R>)
    requires room == [] ==> p' == p + off
    requires room != [] ==> |p| == 1 == |room| && off == [] && p' == []
    requires |p' + off'| == |room'| + |left| && (p' + off')[|room'|..] == left
    ensures var calls, flags := p + (off + off'), room + room';
            && |calls| == |flags| + |left| && calls[|flags|..] == left
            && Kept(calls, flags) == (if room == [] then [] else Kept(p, room)) + Kept(p' + off', room')
            && Lowered(flags) == (if room == [] then 0 else Lowered(room)) + Lowered(room')
  {
    var calls, flags := p + (off + off'), room + room';
    if room == [] {
      assert calls == p' + off' && flags == room';
    } else {
      assert calls[1..] == p' + off' && flags[1..] == room' && p[1..] == [] && room[1..] == [];
    }
  }

  lemma Chain<R>(s: Log<R>, next: Log<R>, s': Log<R>, off: seq<R>, room: seq<bool>, off': seq<R>, room': seq<bool>)
    requires MovesOn(s, next, off, room) && Explains(next, s', off', room')
    ensures Explains(s, s', off + off', room + room')
  {
    hide Undecided, Taken, Lost, Kept, Lowered;
    StepThenRest(Undecided(s.producer), off, room, Undecided(next.producer), off', room', Undecided(s'.producer));
  }

  lemma {:induction false} CallsFrom<R>(s: Log<R>, threshold: nat, actions: seq<Action<R>>)
    requires Inv(s) && s.minLevel == threshold
    ensures Explains(s, Acts(s, actions), Offered(s, threshold, actions), FoundRoom(s, actions))
    decreases actions
  {
    hide Inv, Act, Explains, MovesOn;
    InvRing(s);
    if actions == [] {
      NothingHappens(s);
    } else {
      var a, rest := actions[0], actions[1..];
      var next, t' := Act(s, a), if a.SetMinLevel? then a.level else threshold;
      CallStep(s, threshold, a);
      OneStep(s, threshold, actions);
      ActInv(s, a);
      InvRing(next);
      CallsFrom(next, t', rest);
      Chain(s, next, Acts(s, actions), Offered(s, threshold, [a]), FoundRoom(s, [a]), Offered(next, t', rest),
          FoundRoom(next, rest));
    }
  }

  lemma NothingHappens<R>(s: Log<R>)
    ensures Explains(s, s, [], [])
  {
    assert Undecided(s.producer) + [] == Undecided(s.producer);
  }

  /** In every interleaving from a fresh logger, attempts counts the calls offered; of those that have loaded tail,
      the ones that found a free slot, and no others, are accepted or about to be, in the order of the calls and with
      the records they were called with; the rest are dropped. */
  lemma AcceptedAreTheCalls<R>(bits: nat, actions: seq<Action<R>>)
    ensures var s := Acts(Fresh<R>(bits), actions);
            var calls, room := Offered(Fresh<R>(bits), 2, actions), FoundRoom(Fresh<R>(bits), actions);
            && s.attempts == |calls| == |room| + |Undecided(s.producer)|
            && calls[|room|..] == Undecided(s.producer)
            && s.accepted + Passing(s.producer, |s.ring|) == Kept(calls, room)
            && s.dropped + Dropping(s.producer, |s.ring|) == Lowered(room)
  {
    hide Act, Kept, Inv;
    FreshInv<R>(bits);
    CallsFrom(Fresh<R>(bits), 2, actions);
    assert [] + Offered(Fresh<R>(bits), 2, actions) == Offered(Fresh<R>(bits), 2, actions);
  }
}
