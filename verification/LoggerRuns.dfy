/** What the log ring guarantees in every interleaving. */
module LoggerRuns {
  import opened Loggers

  // ---- safety ----

  /** Whatever the threads do, the counters stay within one ring of each other, the records handed to write_batch
      are the accepted ones from the first on, none repeated, skipped or torn, and every call is accounted for. */
  lemma AlwaysSafe<R>(bits: nat, actions: seq<Action<R>>)
    ensures var s := Acts(Fresh<R>(bits), actions);
            && s.tail <= s.head <= s.tail + |s.ring| && |s.accepted| == s.head
            && s.tail <= |s.output| <= s.head && s.output == Slots(s.accepted[..|s.output|])
            && (s.producer.Quiet? ==> s.attempts == s.head + s.dropped)
            && (forall k :: s.tail <= k < s.head ==> s.ring[Place(s, k)] == Full(s.accepted[k]))
  {
    FreshInv<R>(bits);
    ActsInv(Fresh<R>(bits), actions);
    OutputIsPrefix(Acts(Fresh<R>(bits), actions));
  }

  lemma OutputIsPrefix<R>(s: Log<R>)
    requires Inv(s)
    ensures s.tail <= |s.output| <= s.head && s.output == Slots(s.accepted[..|s.output|])
  {
    hide RingHolds, ProducerOk, ControlOk;
  }

  /** A slot being written is none of those the drain thread has yet to give back, so no read of a record overlaps
      a write, and what is read is the accepted record of that position. */
  lemma NoOverlap<R>(bits: nat, actions: seq<Action<R>>)
    ensures var s := Acts(Fresh<R>(bits), actions);
            && (s.producer.Writing? || s.producer.Written? ==>
                  forall k :: s.tail <= k < s.head ==> Place(s, k) != Place(s, s.producer.h))
            && (s.consumer.Reading? ==>
                  var at := s.consumer.t + |s.consumer.copied|;
                  s.tail <= at < s.head == |s.accepted| && s.ring[Place(s, at)] == Full(s.accepted[at]))
  {
    var s := Acts(Fresh<R>(bits), actions);
    FreshInv<R>(bits);
    ActsInv(Fresh<R>(bits), actions);
    if s.producer.Writing? || s.producer.Written? {
      forall k | s.tail <= k < s.head
        ensures Place(s, k) != Place(s, s.producer.h)
      {
        OtherSlot(s, k, s.head);
      }
    }
  }

  // ---- drops ----

  lemma {:induction false} OthersLeaveProducer<R>(s: Log<R>, actions: seq<Action<R>>)
    requires s.ring != [] && !s.producer.Quiet? && forall i :: 0 <= i < |actions| ==> !actions[i].Produce?
    ensures Acts(s, actions).producer == s.producer && |Acts(s, actions).ring| == |s.ring|
    decreases actions
  {
    if actions != [] {
      assert !actions[0].Produce?;
      OthersLeaveProducer(Act(s, actions[0]), actions[1..]);
    }
  }

  /** A record is dropped exactly when all slots were taken at the moment tail was loaded, whatever the drain thread
      has done since. */
  lemma DropMeansFull<R>(s: Log<R>, between: seq<Action<R>>)
    requires Inv(s) && s.producer.HeadLoaded? && forall i :: 0 <= i < |between| ==> !between[i].Produce?
    ensures var decided := Acts(Act(s, Produce), between);
            var after := Act(decided, Produce);
            && (after.dropped == decided.dropped + 1 <==> s.head == s.tail + |s.ring|)
            && (after.dropped == decided.dropped <==> after.producer.Writing?)
  {
    var loaded := Act(s, Produce);
    OthersLeaveProducer(loaded, between);
  }

  // ---- start ----

  function GoOns<R>(actions: seq<Action<R>>): nat {
    if actions == [] then 0 else (if actions[0].GoOn? then 1 else 0) + GoOns(actions[1..])
  }

  /** Steps of start that are left until the drain thread runs. */
  function ToStart(c: Control): nat {
    match c
    case Opened => 2
    case Spawning => 1
    case _ => 0
  }

  lemma StartStep<R>(s: Log<R>, a: Action<R>)
    requires Inv(s) && (s.control == Opened || s.running) && !a.Start? && !a.Stop?
    ensures var s' := Act(s, a);
            && (s'.control == Opened || s'.running)
            && ToStart(s'.control) <= ToStart(s.control) - if a.GoOn? && s.control != Idle then 1 else 0
  {
    hide RingHolds, ProducerOk, ConsumerOk;
  }

  lemma {:induction false} StartGoesOn<R>(s: Log<R>, actions: seq<Action<R>>)
    requires Inv(s) && (s.control == Opened || s.running)
    requires forall i :: 0 <= i < |actions| ==> !actions[i].Start? && !actions[i].Stop?
    requires GoOns(actions) >= ToStart(s.control)
    ensures Draining(Acts(s, actions))
    decreases actions
  {
    hide Inv, Act;
    if actions == [] {
      Started(s);
    } else {
      InvRing(s);
      ActInv(s, actions[0]);
      StartStep(s, actions[0]);
      StartGoesOn(Act(s, actions[0]), actions[1..]);
    }
  }

  lemma Started<R>(s: Log<R>)
    requires Inv(s) && (s.control == Opened || s.running) && ToStart(s.control) == 0
    ensures Draining(s)
  {
    hide RingHolds, ProducerOk, ConsumerOk;
  }

  /** Start works: when the file can be opened, or the logger runs already, the drain thread runs once start has made
      its remaining steps, however they interleave with the others; when not, start does nothing. */
  lemma StartRuns<R>(s: Log<R>, canOpen: bool, actions: seq<Action<R>>)
    requires Inv(s) && s.control == Idle
    requires forall i :: 0 <= i < |actions| ==> !actions[i].Start? && !actions[i].Stop?
    requires GoOns(actions) >= 2
    ensures var s' := Act(s, Start(canOpen));
            if canOpen || s.running then Draining(Acts(s', actions)) else s' == s && s.consumer.Off?
  {
    hide RingHolds, ProducerOk, ConsumerOk;
    ActInv(s, Start(canOpen));
    if canOpen || s.running {
      StartGoesOn(Act(s, Start(canOpen)), actions);
    }
  }

  // ---- shutdown ----

  /** The producer has stopped: no call of log is in progress, and a drain thread in its second loop has seen all
      that was produced. */
  ghost predicate Settled<R>(s: Log<R>) {
    && s.producer.Quiet?
    && match s.consumer
       case LoadTail(last, h) => last ==> h == s.head
       case Compare(last, h, _) => last ==> h == s.head
       case Exited => s.tail == s.head
       case _ => true
  }

  predicate Silent<R>(a: Action<R>) {
    !a.Call? && !a.Produce?
  }

  lemma ActSettled<R>(s: Log<R>, a: Action<R>)
    requires Inv(s) && Settled(s) && Silent(a)
    ensures Settled(Act(s, a)) && Act(s, a).head == s.head && Act(s, a).accepted == s.accepted
    ensures s.tail == s.head ==> Act(s, a).tail == s.head
    ensures Act(s, a).consumer.Off? && !s.consumer.Off? ==> s.tail == s.head
  {
    hide RingHolds, ProducerOk;
  }

  lemma {:induction false} ActsSettled<R>(s: Log<R>, actions: seq<Action<R>>)
    requires Inv(s) && Settled(s) && (s.consumer.Off? ==> s.tail == s.head)
    requires forall i :: 0 <= i < |actions| ==> Silent(actions[i])
    ensures var s' := Acts(s, actions);
            && Settled(s') && Inv(s') && s'.head == s.head && s'.accepted == s.accepted
            && (s'.consumer.Off? ==> s'.tail == s'.head)
    decreases actions
  {
    hide Inv, Settled;
    InvRing(s);
    if actions != [] {
      assert Silent(actions[0]);
      ActSettled(s, actions[0]);
      ActInv(s, actions[0]);
      ActsSettled(Act(s, actions[0]), actions[1..]);
    }
  }

  /** Once the producer has stopped, stop hands over everything: when the drain thread has ended, flushed equals
      produced and the output is all that was accepted. */
  lemma StopFlushes<R>(s: Log<R>, actions: seq<Action<R>>)
    requires Inv(s) && s.producer.Quiet? && s.control == Idle && s.running
    requires forall i :: 0 <= i < |actions| ==> Silent(actions[i])
    ensures var s' := Acts(Act(s, Stop), actions);
            s'.consumer.Exited? || s'.consumer.Off? ==>
              && s'.tail == s'.head == s.head && s'.accepted == s.accepted && s'.output == Slots(s.accepted)
              && s'.attempts == s'.head + s'.dropped
  {
    hide RingHolds;
    var stopped := Act(s, Stop);
    ActInv(s, Stop);
    ActsSettled(stopped, actions);
    var s' := Acts(stopped, actions);
    OutputIsPrefix(s');
    if s'.consumer.Exited? || s'.consumer.Off? {
      assert s'.accepted[..s'.tail] == s'.accepted;
    }
  }

  /** Steps the drain thread still has to make before it ends, at most. */
  function Work<R>(s: Log<R>): int {
    var backlog := s.head - s.tail;
    match s.consumer
    case Off => 0
    case Exited => 0
    case Check => 10 * backlog + 4
    case LoadHead(last) => 10 * backlog + if last then 3 else 7
    case LoadTail(last, _) => 10 * backlog + if last then 2 else 6
    case Compare(last, _, _) => 10 * backlog + if last then 1 else 5
    case Copy(last, _, count, copied) => 10 * (backlog - count) + 2 * (count - |copied|) + 2 + AtTop(last)
    case Reading(last, _, count, copied) => 10 * (backlog - count) + 2 * (count - |copied|) + 1 + AtTop(last)
    case Flush(last, _, count, _) => 10 * (backlog - count) + 1 + AtTop(last)
    case StoreTail(last, _, count) => 10 * (backlog - count) + 0 + AtTop(last)
  }

  function AtTop(last: bool): int {
    if last then 4 else 5
  }

  /** While stop waits for it, every step of the drain thread brings it nearer to its end. */
  lemma ConsumeProgress<R>(s: Log<R>)
    requires Inv(s) && s.control == Joining && !s.consumer.Exited?
    ensures 0 <= Work(DoConsume(s)) < Work(s)
  {
    hide RingHolds, ProducerOk;
  }

  function Consumes<R>(actions: seq<Action<R>>): nat {
    if actions == [] then 0 else (if actions[0].Consume? then 1 else 0) + Consumes(actions[1..])
  }

  lemma OthersKeepWork<R>(s: Log<R>, a: Action<R>)
    requires Inv(s) && s.control == Joining && Silent(a) && !a.Consume?
    ensures var s' := Act(s, a);
            || (s'.control == Joining && Work(s') == Work(s) && s'.consumer == s.consumer)
            || (s'.control == Idle && s'.consumer.Off? && !s'.running)
  {
    hide RingHolds, ProducerOk, ConsumerOk;
  }

  lemma {:induction false} WorkRunsOut<R>(s: Log<R>, actions: seq<Action<R>>)
    requires Inv(s) && (s.control == Joining || (s.control == Idle && !s.running && s.consumer.Off?))
    requires forall i :: 0 <= i < |actions| ==> Silent(actions[i]) && !actions[i].Start?
    requires Consumes(actions) >= Work(s)
    ensures var s' := Acts(s, actions);
            Inv(s') && if s'.control == Joining then s'.consumer.Exited? else s'.control == Idle && s'.consumer.Off?
    decreases actions
  {
    hide RingHolds, ProducerOk, ConsumerOk;
    if actions == [] {
      WorkLeft(s);
    } else {
      var a := actions[0];
      assert Silent(a) && !a.Start?;
      ActInv(s, a);
      if s.control == Joining && !s.consumer.Exited? {
        if a.Consume? {
          ConsumeProgress(s);
        } else {
          OthersKeepWork(s, a);
        }
      }
      WorkRunsOut(Act(s, a), actions[1..]);
    }
  }

  lemma WorkBound<R>(s: Log<R>)
    requires Inv(s)
    ensures Work(s) <= 10 * |s.ring| + 7
  {
    hide RingHolds, ProducerOk, ControlOk;
  }

  /** Stop comes to an end: with the producer stopped, however the remaining steps interleave, the drain thread has
      ended after a number of its steps that depends on the capacity only, and stop returns with its next step. */
  lemma StopEnds<R>(s: Log<R>, actions: seq<Action<R>>)
    requires Inv(s) && s.control == Idle
    requires forall i :: 0 <= i < |actions| ==> Silent(actions[i]) && !actions[i].Start?
    requires Consumes(actions) >= 10 * |s.ring| + 7
    ensures var s' := Act(Acts(Act(s, Stop), actions), GoOn);
            s'.control == Idle && s'.consumer.Off? && !s'.running
  {
    hide RingHolds, ProducerOk, ConsumerOk, DoConsume, DoProduce, DoCall, Work;
    var stopped := Act(s, Stop);
    ActInv(s, Stop);
    WorkBound(stopped);
    WorkRunsOut(stopped, actions);
  }

  lemma WorkLeft<R>(s: Log<R>)
    requires Inv(s) && Work(s) <= 0
    ensures s.consumer.Exited? || s.consumer.Off?
  {
    hide RingHolds, ProducerOk;
  }

  // ---- progress while running ----

  /** Steps the drain thread has to make, at most, before tail reaches position goal. What it loaded of head may be
      older than goal, which costs one more turn of the loop. */
  function Distance<R>(s: Log<R>, goal: nat): int {
    if s.tail >= goal then 0
    else
      var lag := ROUND * (goal - s.tail);
      match s.consumer
      case Check => lag + 4
      case LoadHead(_) => lag + 3
      case LoadTail(_, h) => lag + if h >= goal then 2 else 6
      case Compare(_, h, _) => lag + if h >= goal then 1 else 5
      case Copy(_, t, count, copied) => After(goal, t + count) + 2 * (count - |copied|) + 2
      case Reading(_, t, count, copied) => After(goal, t + count) + 2 * (count - |copied|) + 1
      case Flush(_, t, count, _) => After(goal, t + count) + 1
      case StoreTail(_, t, count) => After(goal, t + count)
      case _ => 0
  }

  const ROUND := 2 * BATCH + 10

  /** The distance at the top of the loop once tail has become at, and the step that gets there. */
  function After(goal: nat, at: nat): int {
    if at >= goal then 1 else ROUND * (goal - at) + 5
  }

  /** The drain thread is in its first loop. */
  ghost predicate Draining<R>(s: Log<R>) {
    Inv(s) && s.running && s.control == Idle
  }

  lemma LoadAdvances<R>(s: Log<R>, goal: nat)
    requires Draining(s) && s.tail < goal <= s.head
    requires s.consumer.Check? || s.consumer.LoadHead? || s.consumer.LoadTail?
    ensures 0 <= Distance(DoConsume(s), goal) < Distance(s, goal)
  {
    hide RingHolds, ProducerOk;
  }

  lemma CompareAdvances<R>(s: Log<R>, goal: nat)
    requires Draining(s) && s.tail < goal <= s.head && s.consumer.Compare?
    ensures 0 <= Distance(DoConsume(s), goal) < Distance(s, goal)
  {
    hide RingHolds, ProducerOk;
  }

  lemma BatchAdvances<R>(s: Log<R>, goal: nat)
    requires Draining(s) && s.tail < goal <= s.head
    requires s.consumer.Copy? || s.consumer.Reading? || s.consumer.Flush? || s.consumer.StoreTail?
    ensures 0 <= Distance(DoConsume(s), goal) < Distance(s, goal)
  {
    hide RingHolds, ProducerOk, Slots;
  }

  lemma ConsumeAdvances<R>(s: Log<R>, goal: nat)
    requires Draining(s) && s.tail < goal <= s.head
    ensures 0 <= Distance(DoConsume(s), goal) < Distance(s, goal)
  {
    hide Inv, Distance, DoConsume;
    ThreadThere(s);
    match s.consumer
    case Check => LoadAdvances(s, goal);
    case LoadHead(_) => LoadAdvances(s, goal);
    case LoadTail(_, _) => LoadAdvances(s, goal);
    case Compare(_, _, _) => CompareAdvances(s, goal);
    case _ => BatchAdvances(s, goal);
  }

  lemma ThreadThere<R>(s: Log<R>)
    requires Draining(s)
    ensures s.ring != [] && !s.consumer.Off? && !s.consumer.Exited?
  {
    hide RingHolds, ProducerOk, ConsumerOk;
  }

  lemma OthersKeepDistance<R>(s: Log<R>, a: Action<R>, goal: nat)
    requires Draining(s) && !a.Stop?
    ensures var s' := Act(s, a);
            && s'.running && s'.control == Idle && s'.head >= s.head
            && (!a.Consume? ==> Distance(s', goal) == Distance(s, goal) && s'.tail == s.tail)
            && s'.tail >= s.tail
  {
    hide RingHolds;
  }

  lemma DistanceLeft<R>(s: Log<R>, goal: nat)
    requires Draining(s) && Distance(s, goal) <= 0
    ensures s.tail >= goal
  {
    hide RingHolds, ProducerOk;
  }

  lemma {:induction false} TailReaches<R>(s: Log<R>, actions: seq<Action<R>>, goal: nat)
    requires Draining(s) && goal <= s.head && forall i :: 0 <= i < |actions| ==> !actions[i].Stop?
    requires s.tail >= goal || Consumes(actions) >= Distance(s, goal)
    ensures Acts(s, actions).tail >= goal && Inv(Acts(s, actions))
    decreases actions
  {
    hide Inv, Distance, DoConsume;
    InvRing(s);
    if actions == [] {
      if s.tail < goal {
        DistanceLeft(s, goal);
      }
    } else {
      var a := actions[0];
      ActInv(s, a);
      OthersKeepDistance(s, a, goal);
      if s.tail < goal && a.Consume? {
        ConsumeAdvances(s, goal);
      }
      TailReaches(Act(s, a), actions[1..], goal);
    }
  }

  /** While the logger runs, the drain thread keeps up: whatever the producer does meanwhile, a number of its own
      steps that depends on the capacity only hands over every record that was accepted at the start. */
  lemma DrainKeepsUp<R>(s: Log<R>, actions: seq<Action<R>>)
    requires Draining(s) && forall i :: 0 <= i < |actions| ==> !actions[i].Stop?
    requires Consumes(actions) >= ROUND * |s.ring| + 6
    ensures Acts(s, actions).tail >= s.head
    ensures var s' := Acts(s, actions);
            s.head <= |s'.output| <= |s'.accepted| && s'.output == Slots(s'.accepted[..|s'.output|])
  {
    hide RingHolds, ProducerOk;
    DistanceBound(s);
    TailReaches(s, actions, s.head);
    OutputIsPrefix(Acts(s, actions));
  }

  lemma DistanceBound<R>(s: Log<R>)
    requires Draining(s)
    ensures Distance(s, s.head) <= ROUND * |s.ring| + 6
  {
    hide RingHolds, ProducerOk, ControlOk;
    if s.tail < s.head {
      assert ROUND * (s.head - s.tail) <= ROUND * |s.ring|;
    }
  }
}
