/** The parser: it walks the frames of a buffer, counts them, and hands each complete message to the engine. */
module Parsers {
  import opened Types
  import opened Endian
  import opened WireFormats
  import opened Markets
  import opened MatchingEngines
  import opened Messages
  import opened Feeds

  class Stats {
    var perType: seq<nat>
    var totalMessages: nat
    var totalBytes: nat
    var totalFramingBytes: nat
    var parseErrors: nat
    var truncatedMessages: nat

    function Tallied(): Tally
      reads this
    {
      Tally(perType, totalMessages, totalBytes, totalFramingBytes, parseErrors, truncatedMessages)
    }

    predicate Valid()
      reads this
    {
      |perType| == 256
    }

    constructor ()
      ensures Valid() && Tallied() == ZERO_TALLY
    {
      perType := seq(256, _ => 0);
      totalMessages, totalBytes, totalFramingBytes, parseErrors, truncatedMessages := 0, 0, 0, 0, 0;
    }

    method OnMessage(kind: byte, size: nat)
      requires Valid()
      modifies this
      ensures Valid() && Tallied() == CountMessage(old(Tallied()), kind, size)
    {
      perType := perType[kind := perType[kind] + 1];
      totalMessages := totalMessages + 1;
      totalBytes := totalBytes + size;
      totalFramingBytes := totalFramingBytes + 2;
    }

    method OnParseError()
      modifies this
      ensures perType == old(perType) && Tallied() == CountError(old(Tallied()))
    {
      parseErrors := parseErrors + 1;
    }

    method OnTruncated()
      modifies this
      ensures perType == old(perType)
      ensures Tallied() == old(Tallied()).(truncatedMessages := old(Tallied()).truncatedMessages + 1)
    {
      truncatedMessages := truncatedMessages + 1;
    }
  }

  /** checked_cast: the payload as a record of the given size, unless it is too short. */
  function CheckedCast(p: seq<byte>, size: nat): (m: Option<seq<byte>>)
    ensures m.Some? <==> |p| >= size
    ensures m.Some? ==> m.value == p
  {
    if |p| < size then None else Some(p)
  }

  /** The length check decides delivery: a payload makes a step of the market exactly when it is of a book type and
      its cast succeeds. */
  lemma CastDecides(p: seq<byte>)
    requires p != []
    ensures CheckedCast(p, PayloadSize(p[0])).Some? <==> Complete(p)
    ensures EventIn(p).Some? <==> BookKind(p[0]) && CheckedCast(p, PayloadSize(p[0])).Some?
  {
  }

  /** A payload that is too short, of an unknown type or informational delivers nothing. */
  lemma DeliversNothing(limits: Limits, st: State, p: seq<byte>)
    requires p != [] && (!Complete(p) || !Known(p[0]) || !BookKind(p[0]))
    ensures Delivered(limits, st, p) == st
  {
    hide EventIn, Step;
    CastDecides(p);
  }

  /** What a handler needs before it looks at payload p. */
  ghost predicate Ready(p: seq<byte>, engine: MatchingEngine, stats: Stats)
    reads engine.Repr(), stats
  {
    && p != [] && engine.Valid() && stats.Valid() && stats !in engine.Repr()
    && Deliverable(engine.Capacities(), engine.Now().market, p)
  }

  /** What a handler has done with payload p: a complete message has made its step, a short one is counted. */
  twostate predicate Handled(p: seq<byte>, engine: MatchingEngine, stats: Stats)
    requires old(engine.Valid())
    reads engine.Repr(), stats
  {
    && engine.Valid() && fresh(engine.Repr() - old(engine.Repr())) && stats.Valid()
    && engine.Now() == Delivered(engine.Capacities(), old(engine.Now()), p)
    && stats.Tallied() == if Complete(p) then old(stats.Tallied())
                          else old(stats.Tallied()).(truncatedMessages := old(stats.truncatedMessages) + 1)
  }

  twostate predicate Skipped(p: seq<byte>, engine: MatchingEngine, stats: Stats)
    requires old(engine.Valid())
    reads engine.Repr(), stats
  {
    && engine.Valid() && engine.Repr() == old(engine.Repr()) && stats.Valid()
    && engine.Now() == old(engine.Now()) && stats.Tallied() == CountError(old(stats.Tallied()))
  }

  /** Counting a short message does not touch the engine. */
  method Truncated(p: seq<byte>, engine: MatchingEngine, stats: Stats)
    requires Ready(p, engine, stats) && !Complete(p)
    modifies stats
    ensures Handled(p, engine, stats)
  {
    hide MatchingEngine.Sound, MatchingEngine.Current, WellFormed, Deliverable, EventIn, Step, Complete;
    DeliversNothing(engine.Capacities(), engine.Now(), p);
    stats.OnTruncated();
  }

  class Parser {
    const littleEndian: bool

    constructor (littleEndian: bool)
      ensures this.littleEndian == littleEndian
    {
      this.littleEndian := littleEndian;
    }

    /** 'A' and 'F' share a handler; the second names a firm. */
    method HandleAddOrder(p: seq<byte>, engine: MatchingEngine, stats: Stats, attributed: bool)
      requires p != [] && p[0] == if attributed then 'F' as int else 'A' as int
      requires Ready(p, engine, stats)
      modifies engine.Repr(), stats
      ensures Handled(p, engine, stats)
    {
      hide MatchingEngine.Sound, MatchingEngine.Current, WellFormed, Step, Admissible, EventIn, Complete;
      RecordSizes();
      CastDecides(p);
      var m := CheckedCast(p, if attributed then 40 else 36);
      if m.None? {
        Truncated(p, engine, stats);
        return;
      }
      ghost var st, objects, t := engine.Now(), engine.Repr(), stats.Tallied();
      var ev := ReadAdd(p, attributed);
      assert engine.Valid() && engine.Now() == st && engine.Repr() == objects && stats.Tallied() == t;
      engine.OnAddOrder(ev.loc, ev.id, ev.indicator, ev.qty, ev.px, ev.ts, ev.mpid, attributed);
      assert engine.Now() == Step(engine.Capacities(), st, ev) && stats.Tallied() == t;
      assert fresh(engine.Repr() - old(engine.Repr()));
    }

    method ReadAdd(p: seq<byte>, attributed: bool) returns (ev: Event)
      requires Complete(p) && p[0] == if attributed then 'F' as int else 'A' as int
      ensures EventIn(p) == Some(ev) && ev.Add? && ev.attributed == attributed
    {
      hide FromBE;
      var loc := LoadBE16(p[1..3], littleEndian);
      var id := LoadBE64(p[11..19], littleEndian);
      var qty := LoadBE32(p[20..24], littleEndian);
      var px := LoadBE32(p[32..36], littleEndian);
      var ts := LoadBE48(p[5..11]);
      ev := Add(loc, id, p[19], qty, px, ts, if attributed then p[36..40] else NO_MPID, attributed);
    }

    /** 'E' */
    method HandleOrderExecuted(p: seq<byte>, engine: MatchingEngine, stats: Stats)
      requires p != [] && p[0] == 'E' as int
      requires Ready(p, engine, stats)
      modifies engine.Repr(), stats
      ensures Handled(p, engine, stats)
    {
      hide MatchingEngine.Sound, MatchingEngine.Current, WellFormed, Step, Admissible, EventIn, Complete;
      RecordSizes();
      CastDecides(p);
      var m := CheckedCast(p, 31);
      if m.None? {
        Truncated(p, engine, stats);
        return;
      }
      ghost var st := engine.Now();
      var ev := ReadExecute(p);
      assert engine.Now() == st;
      engine.OnOrderExecuted(ev.loc, ev.id, ev.qty, ev.matchNumber);
      assert engine.Now() == Step(engine.Capacities(), st, ev);
    }

    method ReadExecute(p: seq<byte>) returns (ev: Event)
      requires Complete(p) && p[0] == 'E' as int
      ensures EventIn(p) == Some(ev) && ev.Execute?
    {
      hide FromBE;
      var loc := LoadBE16(p[1..3], littleEndian);
      var id := LoadBE64(p[11..19], littleEndian);
      var qty := LoadBE32(p[19..23], littleEndian);
      var matchNumber := LoadBE64(p[23..31], littleEndian);
      ev := Execute(loc, id, qty, matchNumber);
    }

    /** 'C' */
    method HandleOrderExecutedPrice(p: seq<byte>, engine: MatchingEngine, stats: Stats)
      requires p != [] && p[0] == 'C' as int
      requires Ready(p, engine, stats)
      modifies engine.Repr(), stats
      ensures Handled(p, engine, stats)
    {
      hide MatchingEngine.Sound, MatchingEngine.Current, WellFormed, Step, Admissible, EventIn, Complete;
      RecordSizes();
      CastDecides(p);
      var m := CheckedCast(p, 36);
      if m.None? {
        Truncated(p, engine, stats);
        return;
      }
      ghost var st := engine.Now();
      var ev := ReadExecuteAt(p);
      assert engine.Now() == st;
      engine.OnOrderExecutedWithPrice(ev.loc, ev.id, ev.qty, ev.matchNumber, ev.printable, ev.px);
      assert engine.Now() == Step(engine.Capacities(), st, ev);
    }

    method ReadExecuteAt(p: seq<byte>) returns (ev: Event)
      requires Complete(p) && p[0] == 'C' as int
      ensures EventIn(p) == Some(ev) && ev.ExecuteAt?
    {
      hide FromBE;
      var loc := LoadBE16(p[1..3], littleEndian);
      var id := LoadBE64(p[11..19], littleEndian);
      var qty := LoadBE32(p[19..23], littleEndian);
      var matchNumber := LoadBE64(p[23..31], littleEndian);
      var px := LoadBE32(p[32..36], littleEndian);
      ev := ExecuteAt(loc, id, qty, matchNumber, p[31], px);
    }

    /** 'X' */
    method HandleOrderCancel(p: seq<byte>, engine: MatchingEngine, stats: Stats)
      requires p != [] && p[0] == 'X' as int
      requires Ready(p, engine, stats)
      modifies engine.Repr(), stats
      ensures Handled(p, engine, stats)
    {
      hide MatchingEngine.Sound, MatchingEngine.Current, WellFormed, Step, Admissible, EventIn, Complete;
      RecordSizes();
      CastDecides(p);
      var m := CheckedCast(p, 23);
      if m.None? {
        Truncated(p, engine, stats);
        return;
      }
      ghost var st := engine.Now();
      var ev := ReadCancel(p);
      assert engine.Now() == st;
      engine.OnOrderCancel(ev.loc, ev.id, ev.qty);
      assert engine.Now() == Step(engine.Capacities(), st, ev);
    }

    method ReadCancel(p: seq<byte>) returns (ev: Event)
      requires Complete(p) && p[0] == 'X' as int
      ensures EventIn(p) == Some(ev) && ev.Cancel?
    {
      hide FromBE;
      var loc := LoadBE16(p[1..3], littleEndian);
      var id := LoadBE64(p[11..19], littleEndian);
      var qty := LoadBE32(p[19..23], littleEndian);
      ev := Cancel(loc, id, qty);
    }

    /** 'D' */
    method HandleOrderDelete(p: seq<byte>, engine: MatchingEngine, stats: Stats)
      requires p != [] && p[0] == 'D' as int
      requires Ready(p, engine, stats)
      modifies engine.Repr(), stats
      ensures Handled(p, engine, stats)
    {
      hide MatchingEngine.Sound, MatchingEngine.Current, WellFormed, Step, Admissible, EventIn, Complete;
      RecordSizes();
      CastDecides(p);
      var m := CheckedCast(p, 19);
      if m.None? {
        Truncated(p, engine, stats);
        return;
      }
      ghost var st := engine.Now();
      var ev := ReadDelete(p);
      assert engine.Now() == st;
      engine.OnOrderDelete(ev.loc, ev.id);
      assert engine.Now() == Step(engine.Capacities(), st, ev);
    }

    method ReadDelete(p: seq<byte>) returns (ev: Event)
      requires Complete(p) && p[0] == 'D' as int
      ensures EventIn(p) == Some(ev) && ev.Delete?
    {
      hide FromBE;
      var loc := LoadBE16(p[1..3], littleEndian);
      var id := LoadBE64(p[11..19], littleEndian);
      ev := Delete(loc, id);
    }

    /** 'U' */
    method HandleOrderReplace(p: seq<byte>, engine: MatchingEngine, stats: Stats)
      requires p != [] && p[0] == 'U' as int
      requires Ready(p, engine, stats)
      modifies engine.Repr(), stats
      ensures Handled(p, engine, stats)
    {
      hide MatchingEngine.Sound, MatchingEngine.Current, WellFormed, Step, Admissible, EventIn, Complete;
      RecordSizes();
      CastDecides(p);
      var m := CheckedCast(p, 35);
      if m.None? {
        Truncated(p, engine, stats);
        return;
      }
      ghost var st := engine.Now();
      var ev := ReadReplace(p);
      assert engine.Now() == st;
      engine.OnOrderReplace(ev.loc, ev.id, ev.newId, ev.qty, ev.px, ev.ts);
      assert engine.Now() == Step(engine.Capacities(), st, ev);
    }

    method ReadReplace(p: seq<byte>) returns (ev: Event)
      requires Complete(p) && p[0] == 'U' as int
      ensures EventIn(p) == Some(ev) && ev.Replace?
    {
      hide FromBE;
      var loc := LoadBE16(p[1..3], littleEndian);
      var id := LoadBE64(p[11..19], littleEndian);
      var newId := LoadBE64(p[19..27], littleEndian);
      var qty := LoadBE32(p[27..31], littleEndian);
      var px := LoadBE32(p[31..35], littleEndian);
      var ts := LoadBE48(p[5..11]);
      ev := Replace(loc, id, newId, qty, px, ts);
    }

    /** 'P' */
    method HandleNonCrossTrade(p: seq<byte>, engine: MatchingEngine, stats: Stats)
      requires p != [] && p[0] == 'P' as int
      requires Ready(p, engine, stats)
      modifies engine.Repr(), stats
      ensures Handled(p, engine, stats)
    {
      hide MatchingEngine.Sound, MatchingEngine.Current, WellFormed, Step, Admissible, EventIn, Complete;
      RecordSizes();
      CastDecides(p);
      var m := CheckedCast(p, 44);
      if m.None? {
        Truncated(p, engine, stats);
        return;
      }
      ghost var st := engine.Now();
      var ev := ReadTrade(p);
      assert engine.Now() == st;
      engine.OnNonCrossTrade(ev.loc, ev.qty, ev.px, ev.matchNumber);
      assert engine.Now() == Step(engine.Capacities(), st, ev);
    }

    method ReadTrade(p: seq<byte>) returns (ev: Event)
      requires Complete(p) && p[0] == 'P' as int
      ensures EventIn(p) == Some(ev) && ev.Trade?
    {
      hide FromBE;
      var loc := LoadBE16(p[1..3], littleEndian);
      var qty := LoadBE32(p[20..24], littleEndian);
      var px := LoadBE32(p[32..36], littleEndian);
      var matchNumber := LoadBE64(p[36..44], littleEndian);
      ev := Trade(loc, qty, px, matchNumber);
    }

    /** 'Q' */
    method HandleCrossTrade(p: seq<byte>, engine: MatchingEngine, stats: Stats)
      requires p != [] && p[0] == 'Q' as int
      requires Ready(p, engine, stats)
      modifies engine.Repr(), stats
      ensures Handled(p, engine, stats)
    {
      hide MatchingEngine.Sound, MatchingEngine.Current, WellFormed, Step, Admissible, EventIn, Complete;
      RecordSizes();
      CastDecides(p);
      var m := CheckedCast(p, 40);
      if m.None? {
        Truncated(p, engine, stats);
        return;
      }
      ghost var st := engine.Now();
      var ev := ReadCross(p);
      assert engine.Now() == st;
      engine.OnCrossTrade(ev.loc, ev.kind);
      assert engine.Now() == Step(engine.Capacities(), st, ev);
    }

    method ReadCross(p: seq<byte>) returns (ev: Event)
      requires Complete(p) && p[0] == 'Q' as int
      ensures EventIn(p) == Some(ev) && ev.Cross?
    {
      hide FromBE;
      var loc := LoadBE16(p[1..3], littleEndian);
      ev := Cross(loc, p[39]);
    }

    /** 'B' */
    method HandleBrokenTrade(p: seq<byte>, engine: MatchingEngine, stats: Stats)
      requires p != [] && p[0] == 'B' as int
      requires Ready(p, engine, stats)
      modifies engine.Repr(), stats
      ensures Handled(p, engine, stats)
    {
      hide MatchingEngine.Sound, MatchingEngine.Current, WellFormed, Step, Admissible, EventIn, Complete;
      RecordSizes();
      CastDecides(p);
      var m := CheckedCast(p, 19);
      if m.None? {
        Truncated(p, engine, stats);
        return;
      }
      ghost var st := engine.Now();
      var ev := ReadBroken(p);
      assert engine.Now() == st;
      engine.OnBrokenTrade(ev.loc, ev.matchNumber);
      assert engine.Now() == Step(engine.Capacities(), st, ev);
    }

    method ReadBroken(p: seq<byte>) returns (ev: Event)
      requires Complete(p) && p[0] == 'B' as int
      ensures EventIn(p) == Some(ev) && ev.Broken?
    {
      hide FromBE;
      var loc := LoadBE16(p[1..3], littleEndian);
      var matchNumber := LoadBE64(p[11..19], littleEndian);
      ev := Broken(loc, matchNumber);
    }

    /** 'R' makes the instrument named by bytes 1 and 2 unless it is there already. */
    method HandleStockDirectory(p: seq<byte>, engine: MatchingEngine, stats: Stats)
      requires p != [] && p[0] == 'R' as int
      requires Ready(p, engine, stats)
      modifies engine.Repr(), stats
      ensures Handled(p, engine, stats)
      ensures Complete(p) ==>
                |p| >= 39 && Registered(old(engine.instruments.slots[..]), engine.instruments.slots[..], U16At(p, 1))
    {
      hide MatchingEngine.Sound, MatchingEngine.Current, WellFormed, Step, Admissible, EventIn, Complete;
      RecordSizes();
      CastDecides(p);
      var m := CheckedCast(p, 39);
      if m.None? {
        Truncated(p, engine, stats);
        return;
      }
      ghost var st, objects, t := engine.Now(), engine.Repr(), stats.Tallied();
      var loc := LoadBE16(p[1..3], littleEndian);
      assert engine.Valid() && engine.Now() == st && engine.Repr() == objects && stats.Tallied() == t;
      engine.OnStockDirectory(loc);
      assert engine.Now() == st && stats.Tallied() == t;
      assert fresh(engine.Repr() - old(engine.Repr()));
    }

    /** The remaining known types only have their length checked as far as the market is concerned. */
    method HandleInformational(p: seq<byte>, engine: MatchingEngine, stats: Stats)
      requires p != [] && Known(p[0]) && !BookKind(p[0])
      requires Ready(p, engine, stats)
      modifies engine.Repr(), stats
      ensures Handled(p, engine, stats)
    {
      hide MatchingEngine.Sound, MatchingEngine.Current, WellFormed, Step, Admissible, PayloadSize, EventIn,
           Deliverable, Delivered;
      ghost var st, objects, t := engine.Now(), engine.Repr(), stats.Tallied();
      DeliversNothing(engine.Capacities(), st, p);
      var size := WirePayloadSize(p[0]);
      assert engine.Valid() && engine.Now() == st && engine.Repr() == objects && stats.Tallied() == t;
      var m := CheckedCast(p, size);
      if m.None? {
        Truncated(p, engine, stats);
      }
    }

    /** An unknown type is counted as an error and skipped. */
    method HandleUnknown(p: seq<byte>, engine: MatchingEngine, stats: Stats)
      requires p != [] && !Known(p[0])
      requires Ready(p, engine, stats)
      modifies engine.Repr(), stats
      ensures Skipped(p, engine, stats)
    {
      hide MatchingEngine.Sound, MatchingEngine.Current, WellFormed, Step, Admissible, PayloadSize;
      stats.OnParseError();
    }

    /** The switch on the message type. */
    method Route(p: seq<byte>, engine: MatchingEngine, stats: Stats)
      requires p != [] && Ready(p, engine, stats)
      modifies engine.Repr(), stats
      ensures if Known(p[0]) then Handled(p, engine, stats) else Skipped(p, engine, stats)
    {
      hide Ready, Handled, Skipped, MatchingEngine.Valid, MatchingEngine.Now, MatchingEngine.Repr, Deliverable,
           Delivered, EventIn;
      match p[0] as char
      case 'R' => HandleStockDirectory(p, engine, stats);
      case 'A' => HandleAddOrder(p, engine, stats, false);
      case 'F' => HandleAddOrder(p, engine, stats, true);
      case 'E' => HandleOrderExecuted(p, engine, stats);
      case 'C' => HandleOrderExecutedPrice(p, engine, stats);
      case 'X' => HandleOrderCancel(p, engine, stats);
      case 'D' => HandleOrderDelete(p, engine, stats);
      case 'U' => HandleOrderReplace(p, engine, stats);
      case 'P' => HandleNonCrossTrade(p, engine, stats);
      case 'Q' => HandleCrossTrade(p, engine, stats);
      case 'B' => HandleBrokenTrade(p, engine, stats);
      case 'S' | 'H' | 'Y' | 'L' | 'V' | 'W' | 'K' | 'J' | 'h' | 'I' | 'N' | 'O' => HandleInformational(p, engine,
          stats);
      case _ => HandleUnknown(p, engine, stats);
    }

    /** Count the message, then route it. */
    method Dispatch(p: seq<byte>, engine: MatchingEngine, stats: Stats)
      requires Ready(p, engine, stats)
      modifies engine.Repr(), stats
      ensures engine.Valid() && fresh(engine.Repr() - old(engine.Repr())) && stats.Valid()
      ensures engine.Now() == Delivered(engine.Capacities(), old(engine.Now()), p)
      ensures stats.Tallied() == CountPayload(old(stats.Tallied()), p)
    {
      hide MatchingEngine.Valid, MatchingEngine.Now, MatchingEngine.Repr, Step, Deliverable, Delivered, EventIn,
           PayloadSize;
      if !Known(p[0]) {
        DeliversNothing(engine.Capacities(), engine.Now(), p);
      }
      CountIt(p, engine, stats);
      ghost var objects := engine.Repr();
      label Routing:
      Route(p, engine, stats);
      assert forall o :: o in engine.Repr() && o !in objects ==> fresh@Routing(o);
      assert forall o :: o in engine.Repr() && o !in objects ==> fresh(o);
    }

    method CountIt(p: seq<byte>, engine: MatchingEngine, stats: Stats)
      requires Ready(p, engine, stats)
      modifies stats
      ensures p != [] && Ready(p, engine, stats) && engine.Now() == old(engine.Now())
              && engine.Repr() == old(engine.Repr())
      ensures stats.Tallied() == CountMessage(old(stats.Tallied()), p[0], |p|)
    {
      hide MatchingEngine.Sound, MatchingEngine.Current, WellFormed, Deliverable;
      stats.OnMessage(p[0], |p|);
    }

    /** The framing loop: it ends after the last complete frame, having read every byte of the buffer at most
        once, with the engine and the counters where the frames lead. */
    method Run(buf: seq<byte>, engine: MatchingEngine, stats: Stats) returns (consumed: nat)
      requires engine.Valid() && stats.Valid() && stats !in engine.Repr()
      requires AdmissibleRun(engine.Capacities(), engine.Now(), EventsIn(Split(buf).payloads))
      modifies engine.Repr(), stats
      ensures engine.Valid() && fresh(engine.Repr() - old(engine.Repr())) && stats.Valid()
      ensures Outcome(engine.Now(), stats.Tallied(), consumed)
              == Parse(engine.Capacities(), old(engine.Now()), old(stats.Tallied()), buf)
    {
      hide MatchingEngine.Valid, MatchingEngine.Now, MatchingEngine.Repr, EventsIn, Split, Parse, AdmissibleRun;
      ghost var limits, whole := engine.Capacities(), Parse(engine.Capacities(), engine.Now(), stats.Tallied(), buf);
      var p, cut := 0, false;
      assert buf[0..] == buf;
      while p + 2 <= |buf| && !cut
        invariant 0 <= p <= |buf|
        invariant engine.Valid() && stats.Valid() && stats !in engine.Repr()
        invariant forall o :: o in engine.Repr() && o !in old(engine.Repr()) ==> fresh(o)
        invariant cut ==> whole == Outcome(engine.Now(), stats.Tallied(), p)
        invariant !cut ==> AdmissibleRun(limits, engine.Now(), EventsIn(Split(buf[p..]).payloads))
        invariant !cut ==>
                    var o := Parse(limits, engine.Now(), stats.Tallied(), buf[p..]);
                    whole == o.(consumed := p + o.consumed)
        decreases |buf| - p
      {
        ghost var objects := engine.Repr();
        label Before:
        p, cut := NextFrame(buf, p, engine, stats);
        assert forall o :: o in engine.Repr() && o !in objects ==> fresh@Before(o);
      }
      if !cut {
        ParseEnd(limits, engine.Now(), stats.Tallied(), buf[p..]);
      }
      return p;
    }

    /** One turn of the loop, from the prefix at p. A cut frame ends the loop after its prefix. */
    method NextFrame(buf: seq<byte>, p: nat, engine: MatchingEngine, stats: Stats) returns (next: nat, cut: bool)
      requires p + 2 <= |buf| && engine.Valid() && stats.Valid() && stats !in engine.Repr()
      requires AdmissibleRun(engine.Capacities(), engine.Now(), EventsIn(Split(buf[p..]).payloads))
      modifies engine.Repr(), stats
      ensures p < next <= |buf|
      ensures engine.Valid() && stats.Valid()
      ensures forall o :: o in engine.Repr() && o !in old(engine.Repr()) ==> fresh(o)
      ensures var o := Parse(engine.Capacities(), old(engine.Now()), old(stats.Tallied()), buf[p..]);
              if cut then o == Outcome(engine.Now(), stats.Tallied(), next - p)
              else var later := Parse(engine.Capacities(), engine.Now(), stats.Tallied(), buf[next..]);
                   o == later.(consumed := next - p + later.consumed)
      ensures !cut ==> AdmissibleRun(engine.Capacities(), engine.Now(), EventsIn(Split(buf[next..]).payloads))
    {
      hide MatchingEngine.Valid, MatchingEngine.Now, MatchingEngine.Repr, Step, Delivered, Deliverable, EventIn,
           EventsIn, Split, Parse, CountPayload, AdmissibleRun, FromBE;
      ghost var limits, st, t, rest := engine.Capacities(), engine.Now(), stats.Tallied(), buf[p..];
      assert rest[..2] == buf[p..p + 2];
      var n := Prefix(buf[p..p + 2], engine, stats);
      if p + 2 + n > |buf| {
        ParseEnd(limits, st, t, rest);
        CountCut(engine, stats);
        return p + 2, true;
      }
      ParseFrame(limits, st, t, rest);
      AdmissibleFrame(limits, st, rest);
      ghost var payload := buf[p + 2..p + 2 + n];
      assert rest[2..2 + n] == payload && rest[2 + n..] == buf[p + 2 + n..];
      ghost var objects := engine.Repr();
      label Before:
      OnFrame(buf[p + 2..p + 2 + n], engine, stats);
      assert forall o :: o in engine.Repr() && o !in objects ==> fresh@Before(o);
      return p + 2 + n, false;
    }

    /** Reading the prefix leaves everything alone. */
    method Prefix(bytes: seq<byte>, ghost engine: MatchingEngine, ghost stats: Stats) returns (n: u16)
      requires |bytes| == 2 && engine.Valid() && stats.Valid() && stats !in engine.Repr()
      ensures n == FromBE(bytes)
      ensures engine.Valid() && engine.Now() == old(engine.Now()) && engine.Repr() == old(engine.Repr())
      ensures stats.Valid() && stats.Tallied() == old(stats.Tallied())
    {
      hide MatchingEngine.Sound, MatchingEngine.Current, WellFormed;
      n := LoadBE16(bytes, littleEndian);
    }

    /** A frame that the buffer cuts short is an error. */
    method CountCut(engine: MatchingEngine, stats: Stats)
      requires engine.Valid() && stats.Valid() && stats !in engine.Repr()
      modifies stats
      ensures engine.Valid() && engine.Now() == old(engine.Now()) && engine.Repr() == old(engine.Repr())
      ensures stats.Valid() && stats.Tallied() == CountError(old(stats.Tallied()))
    {
      hide MatchingEngine.Sound, MatchingEngine.Current, WellFormed;
      stats.OnParseError();
    }

    /** A frame without payload has no type to dispatch on and is an error. */
    method OnFrame(payload: seq<byte>, engine: MatchingEngine, stats: Stats)
      requires engine.Valid() && stats.Valid() && stats !in engine.Repr()
      requires Deliverable(engine.Capacities(), engine.Now().market, payload)
      modifies engine.Repr(), stats
      ensures engine.Valid() && fresh(engine.Repr() - old(engine.Repr())) && stats.Valid()
      ensures engine.Now() == Delivered(engine.Capacities(), old(engine.Now()), payload)
      ensures stats.Tallied() == CountPayload(old(stats.Tallied()), payload)
    {
      hide MatchingEngine.Valid, MatchingEngine.Now, Step, EventIn, Deliverable, Delivered, CountPayload;
      if payload == [] {
        EmptyPayload(engine.Capacities(), engine.Now(), stats.Tallied());
        CountCut(engine, stats);
      } else {
        Dispatch(payload, engine, stats);
      }
    }
  }

  lemma EmptyPayload(limits: Limits, st: State, t: Tally)
    requires |t.perType| == 256
    ensures Delivered(limits, st, []) == st && CountPayload(t, []) == CountError(t)
  {
  }

  /** The record sizes the handlers check for. */
  lemma RecordSizes()
    ensures PayloadSize('A' as int) == PayloadSize('C' as int) == 36
    ensures PayloadSize('F' as int) == PayloadSize('Q' as int) == 40
    ensures PayloadSize('E' as int) == 31 && PayloadSize('X' as int) == 23 && PayloadSize('U' as int) == 35
    ensures PayloadSize('D' as int) == PayloadSize('B' as int) == 19
    ensures PayloadSize('P' as int) == 44 && PayloadSize('R' as int) == 39
  {
  }
}
