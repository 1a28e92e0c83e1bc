/** The log ring as interleaved atomic steps of one producer (log), one drain thread and the thread that starts and
    stops it. Loads and the use of what was loaded are separate steps, so stale values arise by themselves. */
module Loggers {
  import opened Bits

  const BATCH := 64

  /** A slot holds no record yet, a record being written, or a whole record. */
  datatype Slot<R> = Blank | Torn | Full(record: R)

  /** Where the producer is inside log. */
  datatype Producer<R> =
    | Quiet
    | Called(record: R)
    | HeadLoaded(record: R, h: nat)
    | TailLoaded(record: R, h: nat, t: nat)
    | Writing(record: R, h: nat)
    | Written(record: R, h: nat)

  /** Where the drain thread is; last says that it is in its second loop, after running was seen false. */
  datatype Consumer<R> =
    | Off
    | Check
    | LoadHead(last: bool)
    | LoadTail(last: bool, h: nat)
    | Compare(last: bool, h: nat, t: nat)
    | Copy(last: bool, t: nat, count: nat, copied: seq<Slot<R>>)
    | Reading(last: bool, t: nat, count: nat, copied: seq<Slot<R>>)
    | Flush(last: bool, t: nat, count: nat, copied: seq<Slot<R>>)
    | StoreTail(last: bool, t: nat, count: nat)
    | Exited

  /** Where the thread that calls start and stop is. */
  datatype Control = Idle | Opened | Spawning | Joining

  /** accepted, output and attempts are history: the records whose head store has happened, what was handed to
      write_batch, and the calls of log at or above the threshold. */
  datatype Log<R> = Log(
    ring: seq<Slot<R>>, head: nat, tail: nat, dropped: nat, minLevel: nat, running: bool,
    producer: Producer<R>, consumer: Consumer<R>, control: Control,
    accepted: seq<R>, output: seq<Slot<R>>, attempts: nat)

  /** One atomic step of one thread. */
  datatype Action<R> =
    | Call(level: nat, record: R)
    | Produce
    | Consume
    | Start(canOpen: bool)
    | GoOn
    | Stop
    | SetMinLevel(level: nat)

  /** The constructor, which aborts unless the capacity is a power of two. */
  function Fresh<R>(bits: nat): Log<R> {
    Log(seq(Pow2(bits), _ => Blank), 0, 0, 0, 2, false, Quiet, Off, Idle, [], [], 0)
  }

  /** ring_[k & mask_] */
  function Place<R>(s: Log<R>, k: nat): (i: nat)
    requires s.ring != []
    ensures i < |s.ring|
  {
    k % |s.ring|
  }

  lemma PlaceIsMasked<R>(s: Log<R>, k: nat, bits: nat)
    requires |s.ring| == Pow2(bits)
    ensures Place(s, k) == And(k, |s.ring| - 1)
  {
    MaskIsRemainder(k, bits);
  }

  // ---- the producer ----

  function DoCall<R>(s: Log<R>, level: nat, record: R): Log<R> {
    if !s.producer.Quiet? || level < s.minLevel then s
    else s.(producer := Called(record), attempts := s.attempts + 1)
  }

  function DoProduce<R>(s: Log<R>): Log<R>
    requires s.ring != []
  {
    match s.producer
    case Quiet => s
    case Called(r) => s.(producer := HeadLoaded(r, s.head))
    case HeadLoaded(r, h) => s.(producer := TailLoaded(r, h, s.tail))
    case TailLoaded(r, h, t) =>
      if h - t >= |s.ring| then s.(dropped := s.dropped + 1, producer := Quiet)
      else s.(ring := s.ring[Place(s, h) := Torn], producer := Writing(r, h))
    case Writing(r, h) => s.(ring := s.ring[Place(s, h) := Full(r)], producer := Written(r, h))
    case Written(r, h) => s.(head := h + 1, accepted := s.accepted + [r], producer := Quiet)
  }

  // ---- the drain thread ----

  function Min(a: nat, b: nat): nat {
    if a < b then a else b
  }

  /** The top of the loop that the thread is in. */
  function Top<R>(last: bool): Consumer<R> {
    if last then LoadHead(true) else Check
  }

  function DoConsume<R>(s: Log<R>): Log<R>
    requires s.ring != []
  {
    match s.consumer
    case Off => s
    case Check => s.(consumer := LoadHead(!s.running))
    case LoadHead(last) => s.(consumer := LoadTail(last, s.head))
    case LoadTail(last, h) => s.(consumer := Compare(last, h, s.tail))
    case Compare(last, h, t) =>
      if t == h then s.(consumer := if last then Exited else Check)
      else if t < h then s.(consumer := Copy(last, t, Min(BATCH, h - t), []))
      else s
    case Copy(last, t, count, copied) =>
      s.(consumer := if |copied| < count then Reading(last, t, count, copied) else Flush(last, t, count, copied))
    case Reading(last, t, count, copied) =>
      s.(consumer := Copy(last, t, count, copied + [s.ring[Place(s, t + |copied|)]]))
    case Flush(last, t, count, copied) => s.(output := s.output + copied, consumer := StoreTail(last, t, count))
    case StoreTail(last, t, count) => s.(tail := t + count, consumer := Top(last))
    case Exited => s
  }

  // ---- start and stop ----

  /** start returns at once when running, or when the file cannot be opened. */
  function DoStart<R>(s: Log<R>, canOpen: bool): Log<R> {
    if s.control == Idle && !s.running && canOpen then s.(control := Opened) else s
  }

  /** The later steps of start and stop: raise running, make the thread, join it. */
  function DoGoOn<R>(s: Log<R>): Log<R> {
    match s.control
    case Idle => s
    case Opened => s.(running := true, control := Spawning)
    case Spawning => s.(consumer := Check, control := Idle)
    case Joining => if s.consumer.Exited? then s.(consumer := Off, control := Idle) else s
  }

  /** stop exchanges running for false and joins the thread if it was true. */
  function DoStop<R>(s: Log<R>): Log<R> {
    if s.control == Idle && s.running then s.(running := false, control := Joining) else s
  }

  function Act<R>(s: Log<R>, a: Action<R>): Log<R>
    requires s.ring != []
  {
    match a
    case Call(level, record) => DoCall(s, level, record)
    case Produce => DoProduce(s)
    case Consume => DoConsume(s)
    case Start(canOpen) => DoStart(s, canOpen)
    case GoOn => DoGoOn(s)
    case Stop => DoStop(s)
    case SetMinLevel(level) => s.(minLevel := level)
  }

  function Acts<R>(s: Log<R>, actions: seq<Action<R>>): (s': Log<R>)
    requires s.ring != []
    ensures s'.ring != []
    decreases actions
  {
    if actions == [] then s
    else
      var next := Act(s, actions[0]);
      assert |next.ring| == |s.ring|;
      Acts(next, actions[1..])
  }

  // ---- the invariant ----

  /** The accepted records as they lie in slots. */
  function Slots<R>(records: seq<R>): seq<Slot<R>> {
    seq(|records|, i requires 0 <= i < |records| => Full(records[i]))
  }

  ghost predicate Between<R>(s: Log<R>) {
    |s.accepted| == s.head && s.tail <= s.head <= s.tail + |s.ring|
  }

  /** Slots tail to head - 1 hold the accepted records in order. */
  ghost predicate RingHolds<R>(s: Log<R>)
    requires s.ring != [] && Between(s)
  {
    forall k :: s.tail <= k < s.head ==> s.ring[Place(s, k)] == Full(s.accepted[k])
  }

  ghost predicate ProducerOk<R>(s: Log<R>)
    requires s.ring != [] && Between(s)
  {
    match s.producer
    case Quiet => true
    case Called(_) => true
    case HeadLoaded(_, h) => h == s.head
    case TailLoaded(_, h, t) => h == s.head && t <= s.tail
    case Writing(_, h) => h == s.head < s.tail + |s.ring| && s.ring[Place(s, h)] == Torn
    case Written(r, h) => h == s.head < s.tail + |s.ring| && s.ring[Place(s, h)] == Full(r)
  }

  ghost predicate Copied<R>(s: Log<R>, t: nat, count: nat, copied: seq<Slot<R>>)
    requires Between(s)
  {
    && t == s.tail && 0 < count <= BATCH && t + count <= s.head && |copied| <= count
    && copied == Slots(s.accepted[t..t + |copied|])
  }

  ghost predicate ConsumerOk<R>(s: Log<R>)
    requires s.ring != [] && Between(s)
  {
    && (if s.consumer.StoreTail? then
          && s.consumer.t == s.tail && 0 < s.consumer.count <= BATCH && s.tail + s.consumer.count <= s.head
          && s.output == Slots(s.accepted[..s.tail + s.consumer.count])
        else s.output == Slots(s.accepted[..s.tail]))
    && match s.consumer
       case LoadTail(_, h) => s.tail <= h <= s.head
       case Compare(_, h, t) => t == s.tail && t <= h <= s.head
       case Copy(_, t, count, copied) => Copied(s, t, count, copied)
       case Reading(_, t, count, copied) => Copied(s, t, count, copied) && |copied| < count
       case Flush(_, t, count, copied) => Copied(s, t, count, copied) && |copied| == count
       case _ => true
  }

  /** The drain thread is in its second loop. */
  ghost predicate Ending<R>(c: Consumer<R>) {
    match c
    case Off => false
    case Check => false
    case LoadHead(last) => last
    case LoadTail(last, _) => last
    case Compare(last, _, _) => last
    case Copy(last, _, _, _) => last
    case Reading(last, _, _, _) => last
    case Flush(last, _, _, _) => last
    case StoreTail(last, _, _) => last
    case Exited => true
  }

  /** There is at most one drain thread, it runs while running is raised, and only stop lets it end. */
  ghost predicate ControlOk<R>(s: Log<R>) {
    match s.control
    case Idle => if s.running then !s.consumer.Off? && !Ending(s.consumer) else s.consumer.Off?
    case Opened => !s.running && s.consumer.Off?
    case Spawning => s.running && s.consumer.Off?
    case Joining => !s.running && !s.consumer.Off?
  }

  ghost predicate Inv<R>(s: Log<R>) {
    && s.ring != [] && Between(s) && RingHolds(s) && ProducerOk(s) && ConsumerOk(s) && ControlOk(s)
    && s.attempts == s.head + s.dropped + if s.producer.Quiet? then 0 else 1
  }

  lemma FreshInv<R>(bits: nat)
    ensures Inv(Fresh<R>(bits))
  {
  }

  /** Different positions of one window of the ring lie in different slots. */
  lemma OtherSlot<R>(s: Log<R>, i: nat, k: nat)
    requires s.ring != [] && i < k < i + |s.ring|
    ensures Place(s, i) != Place(s, k)
  {
    var n := |s.ring|;
    if i % n == k % n {
      var d := k / n - i / n;
      assert d * n == k - i;
      NoMultipleBetween(d, n, k - i);
      assert false;
    }
  }

  lemma WriteKeepsRing<R>(s: Log<R>, slot: Slot<R>)
    requires s.ring != [] && Between(s) && RingHolds(s) && s.head < s.tail + |s.ring|
    ensures var s' := s.(ring := s.ring[Place(s, s.head) := slot]); Between(s') && RingHolds(s')
  {
    var s' := s.(ring := s.ring[Place(s, s.head) := slot]);
    forall k | s.tail <= k < s.head
      ensures s'.ring[Place(s', k)] == Full(s.accepted[k])
    {
      OtherSlot(s, k, s.head);
    }
  }

  /** A step that leaves records, counters and the other threads alone. */
  lemma ProducerMoves<R>(s: Log<R>, s': Log<R>)
    requires Inv(s) && s' == s.(producer := s'.producer, dropped := s'.dropped, attempts := s'.attempts)
    requires ProducerOk(s') && s'.attempts == s.head + s'.dropped + if s'.producer.Quiet? then 0 else 1
    ensures Inv(s')
  {
  }

  lemma ProducerWrites<R>(s: Log<R>, slot: Slot<R>, p: Producer<R>)
    requires Inv(s) && !s.producer.Quiet? && s.head < s.tail + |s.ring|
    requires (p.Writing? && slot.Torn?) || (p.Written? && slot == Full(p.record))
    requires p.h == s.head
    ensures Inv(s.(ring := s.ring[Place(s, s.head) := slot], producer := p))
  {
    WriteKeepsRing(s, slot);
  }

  lemma ProducerStores<R>(s: Log<R>)
    requires Inv(s) && s.producer.Written?
    ensures Inv(DoProduce(s))
  {
    AcceptedGrows(s, s.producer.record);
  }

  lemma ProduceInv<R>(s: Log<R>)
    requires Inv(s)
    ensures Inv(DoProduce(s))
  {
    hide RingHolds, ConsumerOk, ControlOk;
    match s.producer
    case Quiet =>
    case Called(_) => ProducerMoves(s, DoProduce(s));
    case HeadLoaded(_, _) => ProducerMoves(s, DoProduce(s));
    case TailLoaded(r, h, t) =>
      if h - t < |s.ring| {
        ProducerWrites(s, Torn, Writing(r, h));
      } else {
        ProducerMoves(s, DoProduce(s));
      }
    case Writing(r, h) => ProducerWrites(s, Full(r), Written(r, h));
    case Written(_, _) => ProducerStores(s);
  }

  lemma AcceptedGrows<R>(s: Log<R>, r: R)
    requires s.ring != [] && Between(s) && ConsumerOk(s) && s.head < s.tail + |s.ring|
    ensures var s' := s.(head := s.head + 1, accepted := s.accepted + [r]); Between(s') && ConsumerOk(s')
  {
    var s' := s.(head := s.head + 1, accepted := s.accepted + [r]);
    assert forall i, j :: 0 <= i <= j <= s.head ==> s'.accepted[i..j] == s.accepted[i..j];
    assert forall j :: 0 <= j <= s.head ==> s'.accepted[..j] == s.accepted[..j];
  }

  /** A step of the drain thread that changes neither tail nor output. */
  lemma ConsumerMoves<R>(s: Log<R>, s': Log<R>)
    requires Inv(s) && s' == s.(consumer := s'.consumer) && ConsumerOk(s') && ControlOk(s')
    ensures Inv(s')
  {
  }

  lemma ConsumerFlushes<R>(s: Log<R>)
    requires Inv(s) && s.consumer.Flush?
    ensures Inv(DoConsume(s))
  {
    FlushInv(s, s.consumer.t, s.consumer.count);
  }

  /** Storing tail gives the copied slots back to the producer. */
  lemma ConsumerStores<R>(s: Log<R>)
    requires Inv(s) && s.consumer.StoreTail?
    ensures Inv(DoConsume(s))
  {
  }

  /** The loads and the comparison at the top of either loop. */
  lemma ConsumerLoads<R>(s: Log<R>)
    requires Inv(s) && (s.consumer.Check? || s.consumer.LoadHead? || s.consumer.LoadTail? || s.consumer.Compare?)
    ensures Inv(DoConsume(s))
  {
    hide RingHolds, ProducerOk;
    ConsumerMoves(s, DoConsume(s));
  }

  lemma ConsumerCopies<R>(s: Log<R>)
    requires Inv(s) && (s.consumer.Copy? || s.consumer.Reading?)
    ensures Inv(DoConsume(s))
  {
    hide ProducerOk;
    if s.consumer.Reading? {
      ReadInv(s, s.consumer.t, s.consumer.copied);
    }
    ConsumerMoves(s, DoConsume(s));
  }

  lemma ConsumeInv<R>(s: Log<R>)
    requires Inv(s)
    ensures Inv(DoConsume(s))
  {
    hide Inv;
    InvRing(s);
    match s.consumer
    case Off =>
    case Exited =>
    case Copy(_, _, _, _) => ConsumerCopies(s);
    case Reading(_, _, _, _) => ConsumerCopies(s);
    case Flush(_, _, _, _) => ConsumerFlushes(s);
    case StoreTail(_, _, _) => ConsumerStores(s);
    case _ => ConsumerLoads(s);
  }

  lemma ReadInv<R>(s: Log<R>, t: nat, copied: seq<Slot<R>>)
    requires Inv(s) && t == s.tail && t + |copied| < s.head && copied == Slots(s.accepted[t..t + |copied|])
    ensures copied + [s.ring[Place(s, t + |copied|)]] == Slots(s.accepted[t..t + |copied| + 1])
  {
  }

  lemma FlushInv<R>(s: Log<R>, t: nat, count: nat)
    requires Inv(s) && t == s.tail && t + count <= s.head
    ensures Slots(s.accepted[..t]) + Slots(s.accepted[t..t + count]) == Slots(s.accepted[..t + count])
  {
  }

  /** A step of the thread that starts and stops. */
  lemma ControlMoves<R>(s: Log<R>, s': Log<R>)
    requires Inv(s) && s' == s.(running := s'.running, control := s'.control, consumer := s'.consumer,
             minLevel := s'.minLevel)
    requires ControlOk(s')
    requires s'.consumer == s.consumer || (!s.consumer.StoreTail? && (s'.consumer.Check? || s'.consumer.Off?))
    ensures Inv(s')
  {
  }

  lemma ControlInv<R>(s: Log<R>, a: Action<R>)
    requires Inv(s) && (a.Start? || a.GoOn? || a.Stop? || a.SetMinLevel?)
    ensures Inv(Act(s, a))
  {
    hide RingHolds, ProducerOk, ConsumerOk, DoProduce, DoConsume, DoCall;
    ControlMoves(s, Act(s, a));
  }

  lemma CallInv<R>(s: Log<R>, level: nat, record: R)
    requires Inv(s)
    ensures Inv(DoCall(s, level, record))
  {
    hide RingHolds, ConsumerOk, ControlOk;
    ProducerMoves(s, DoCall(s, level, record));
  }

  lemma ActInv<R>(s: Log<R>, a: Action<R>)
    requires Inv(s)
    ensures Inv(Act(s, a))
  {
    hide Inv, DoProduce, DoConsume, DoCall;
    InvRing(s);
    match a
    case Call(level, record) => CallInv(s, level, record);
    case Produce => ProduceInv(s);
    case Consume => ConsumeInv(s);
    case _ => ControlInv(s, a);
  }

  /** Over every interleaving of every length. */
  lemma {:induction false} ActsInv<R>(s: Log<R>, actions: seq<Action<R>>)
    requires Inv(s)
    ensures Inv(Acts(s, actions))
    decreases actions
  {
    hide Inv;
    InvRing(s);
    if actions != [] {
      ActInv(s, actions[0]);
      ActsInv(Act(s, actions[0]), actions[1..]);
    }
  }

  lemma InvRing<R>(s: Log<R>)
    requires Inv(s)
    ensures s.ring != []
  {
  }
}
