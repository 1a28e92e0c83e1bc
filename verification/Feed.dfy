/** Framing: how a buffer splits into length-prefixed payloads, what a parse of it counts, and what it delivers. */
module Feeds {
  import opened Types
  import opened Endian
  import opened WireFormats
  import opened Markets
  import opened MarketInvariants
  import opened Messages

  // ---- framing ----

  /** A buffer as the payloads of its complete frames and the bytes after them, where no complete frame starts. */
  datatype Feed = Feed(payloads: seq<seq<byte>>, rest: seq<byte>)

  /** The payload length that a two-byte prefix announces. */
  function Announced(buf: seq<byte>): nat
    requires |buf| >= 2
  {
    FromBE(buf[..2])
  }

  predicate StartsFrame(buf: seq<byte>) {
    |buf| >= 2 && 2 + Announced(buf) <= |buf|
  }

  function Split(buf: seq<byte>): Feed
    decreases |buf|
  {
    if !StartsFrame(buf) then Feed([], buf)
    else
      var n := Announced(buf);
      var later := Split(buf[2 + n..]);
      Feed([buf[2..2 + n]] + later.payloads, later.rest)
  }

  function Frame(p: seq<byte>): seq<byte> {
    ToBE(|p|, 2) + p
  }

  function Join(ps: seq<seq<byte>>): seq<byte> {
    if ps == [] then [] else Frame(ps[0]) + Join(ps[1..])
  }

  predicate Framable(ps: seq<seq<byte>>) {
    forall i :: 0 <= i < |ps| ==> |ps[i]| < 0x1_0000
  }

  lemma FrameStarts(p: seq<byte>, more: seq<byte>)
    requires |p| < 0x1_0000
    ensures var buf := Frame(p) + more;
            StartsFrame(buf) && Announced(buf) == |p| && buf[2..2 + |p|] == p && buf[2 + |p|..] == more
  {
    PowIs();
    DecodeEncode(|p|, 2);
    assert (Frame(p) + more)[..2] == ToBE(|p|, 2);
  }

  /** Splitting undoes framing. */
  lemma {:induction false} SplitJoin(ps: seq<seq<byte>>, rest: seq<byte>)
    requires Framable(ps) && !StartsFrame(rest)
    ensures Split(Join(ps) + rest) == Feed(ps, rest)
  {
    hide Frame;
    if ps == [] {
      assert Join(ps) + rest == rest;
    } else {
      SplitJoin(ps[1..], rest);
      FrameStarts(ps[0], Join(ps[1..]) + rest);
      assert (Frame(ps[0]) + Join(ps[1..])) + rest == Frame(ps[0]) + (Join(ps[1..]) + rest);
      assert ps == [ps[0]] + ps[1..];
    }
  }

  lemma OneFrame(buf: seq<byte>)
    requires StartsFrame(buf)
    ensures var n := Announced(buf);
            n < 0x1_0000 && buf == Frame(buf[2..2 + n]) + buf[2 + n..]
  {
    FromBEBound(buf[..2]);
    PowIs();
    EncodeDecode(buf[..2]);
  }

  /** And framing undoes splitting: no byte of any buffer is lost or read twice. */
  lemma {:induction false} JoinSplit(buf: seq<byte>)
    ensures Framable(Split(buf).payloads) && !StartsFrame(Split(buf).rest)
    ensures Join(Split(buf).payloads) + Split(buf).rest == buf
    decreases |buf|
  {
    hide Frame, FromBE;
    if StartsFrame(buf) {
      OneFrame(buf);
      var p, later := buf[2..2 + Announced(buf)], Split(buf[2 + Announced(buf)..]);
      JoinSplit(buf[2 + Announced(buf)..]);
      assert ([p] + later.payloads)[1..] == later.payloads;
      assert Frame(p) + (Join(later.payloads) + later.rest) == (Frame(p) + Join(later.payloads)) + later.rest;
    } else {
      assert Join([]) + buf == buf;
    }
  }

  /** A buffer of complete frames in front of another one. */
  lemma SplitAppend(a: seq<byte>, b: seq<byte>)
    requires Split(a).rest == []
    ensures Split(a + b) == Feed(Split(a).payloads + Split(b).payloads, Split(b).rest)
  {
    hide Split, Join;
    JoinSplit(a);
    JoinSplit(b);
    var ps, qs, rest := Split(a).payloads, Split(b).payloads, Split(b).rest;
    JoinAppend(ps, qs);
    assert Join(ps) + [] == Join(ps);
    assert a + b == Join(ps + qs) + rest;
    SplitJoin(ps + qs, rest);
  }

  lemma {:induction false} JoinAppend(ps: seq<seq<byte>>, qs: seq<seq<byte>>)
    ensures Join(ps + qs) == Join(ps) + Join(qs)
  {
    hide Frame;
    if ps == [] {
      assert ps + qs == qs;
    } else {
      JoinAppend(ps[1..], qs);
      assert (ps + qs)[1..] == ps[1..] + qs && (ps + qs)[0] == ps[0];
      var first := Frame(ps[0]);
      assert first + (Join(ps[1..]) + Join(qs)) == (first + Join(ps[1..])) + Join(qs);
    }
  }

  // ---- counting ----

  /** The integer counters of a parse. */
  datatype Tally = Tally(perType: seq<nat>, totalMessages: nat, totalBytes: nat, totalFramingBytes: nat,
                         parseErrors: nat, truncatedMessages: nat)

  const ZERO_TALLY := Tally(seq(256, _ => 0), 0, 0, 0, 0, 0)

  function CountMessage(t: Tally, kind: byte, size: nat): Tally
    requires |t.perType| == 256
  {
    t.(perType := t.perType[kind := t.perType[kind] + 1], totalMessages := t.totalMessages + 1,
       totalBytes := t.totalBytes + size, totalFramingBytes := t.totalFramingBytes + 2)
  }

  function CountError(t: Tally): Tally {
    t.(parseErrors := t.parseErrors + 1)
  }

  function CountPayload(t: Tally, p: seq<byte>): (t': Tally)
    requires |t.perType| == 256
    ensures |t'.perType| == 256
  {
    if p == [] then CountError(t)
    else
      var counted := CountMessage(t, p[0], |p|);
      if !Known(p[0]) then CountError(counted)
      else if !Complete(p) then counted.(truncatedMessages := counted.truncatedMessages + 1)
      else counted
  }

  function CountPayloads(t: Tally, ps: seq<seq<byte>>): (t': Tally)
    requires |t.perType| == 256
    ensures |t'.perType| == 256
    decreases ps
  {
    if ps == [] then t else CountPayloads(CountPayload(t, ps[0]), ps[1..])
  }

  function CountIf(ps: seq<seq<byte>>, which: seq<byte> -> bool): nat {
    if ps == [] then 0 else (if which(ps[0]) then 1 else 0) + CountIf(ps[1..], which)
  }

  predicate Empty(p: seq<byte>) {
    p == []
  }

  predicate Unknown(p: seq<byte>) {
    p != [] && !Known(p[0])
  }

  predicate Short(p: seq<byte>) {
    p != [] && Known(p[0]) && |p| < PayloadSize(p[0])
  }

  function Sum(counts: seq<nat>): nat {
    if counts == [] then 0 else counts[0] + Sum(counts[1..])
  }

  lemma {:induction false} SumUpdate(counts: seq<nat>, i: nat)
    requires i < |counts|
    ensures Sum(counts[i := counts[i] + 1]) == Sum(counts) + 1
  {
    var more := counts[i := counts[i] + 1];
    if i == 0 {
      assert more[1..] == counts[1..];
    } else {
      SumUpdate(counts[1..], i - 1);
      assert more[1..] == counts[1..][i - 1 := counts[i] + 1];
    }
  }

  lemma {:induction false} ErrorsCounted(t: Tally, ps: seq<seq<byte>>)
    requires |t.perType| == 256
    ensures var t' := CountPayloads(t, ps);
            && t'.parseErrors == t.parseErrors + CountIf(ps, Empty) + CountIf(ps, Unknown)
            && t'.truncatedMessages == t.truncatedMessages + CountIf(ps, Short)
    decreases ps
  {
    hide PayloadSize;
    if ps != [] {
      ErrorsCounted(CountPayload(t, ps[0]), ps[1..]);
    }
  }

  lemma {:induction false} BytesCounted(t: Tally, ps: seq<seq<byte>>)
    requires |t.perType| == 256
    ensures var t' := CountPayloads(t, ps);
            && t'.totalMessages == t.totalMessages + |ps| - CountIf(ps, Empty)
            && t'.totalBytes + t'.totalFramingBytes + 2 * CountIf(ps, Empty)
                == t.totalBytes + t.totalFramingBytes + |Join(ps)|
            && t'.totalFramingBytes - t.totalFramingBytes == 2 * (t'.totalMessages - t.totalMessages)
    decreases ps
  {
    hide Known, Complete;
    if ps != [] {
      BytesCounted(CountPayload(t, ps[0]), ps[1..]);
    }
  }

  lemma {:induction false} TypesCounted(t: Tally, ps: seq<seq<byte>>)
    requires |t.perType| == 256
    ensures var t' := CountPayloads(t, ps); Sum(t'.perType) - Sum(t.perType) == t'.totalMessages - t.totalMessages
    decreases ps
  {
    hide Known, Complete;
    if ps != [] {
      if ps[0] != [] {
        SumUpdate(t.perType, ps[0][0]);
      }
      TypesCounted(CountPayload(t, ps[0]), ps[1..]);
    }
  }

  /** The payloads of one type. */
  function OfKind(kind: byte): seq<byte> -> bool {
    (p: seq<byte>) => p != [] && p[0] == kind
  }

  lemma {:induction false} KindCounted(t: Tally, ps: seq<seq<byte>>, kind: byte)
    requires |t.perType| == 256
    ensures CountPayloads(t, ps).perType[kind] == t.perType[kind] + CountIf(ps, OfKind(kind))
    decreases ps
  {
    hide Known, Complete;
    if ps != [] {
      KindCounted(CountPayload(t, ps[0]), ps[1..], kind);
    }
  }

  /** Exactly which frames each counter counts, over any payloads. */
  lemma CountsAreExact(t: Tally, ps: seq<seq<byte>>)
    requires |t.perType| == 256
    ensures var t' := CountPayloads(t, ps);
            && t'.parseErrors == t.parseErrors + CountIf(ps, Empty) + CountIf(ps, Unknown)
            && t'.truncatedMessages == t.truncatedMessages + CountIf(ps, Short)
            && t'.totalMessages == t.totalMessages + |ps| - CountIf(ps, Empty)
            && t'.totalBytes + t'.totalFramingBytes + 2 * CountIf(ps, Empty)
                == t.totalBytes + t.totalFramingBytes + |Join(ps)|
            && t'.totalFramingBytes - t.totalFramingBytes == 2 * (t'.totalMessages - t.totalMessages)
            && Sum(t'.perType) - Sum(t.perType) == t'.totalMessages - t.totalMessages
    ensures forall kind: byte {:trigger CountIf(ps, OfKind(kind))} ::
              CountPayloads(t, ps).perType[kind] == t.perType[kind] + CountIf(ps, OfKind(kind))
  {
    hide CountPayloads, CountIf, Sum, Join, OfKind;
    forall kind: byte
      ensures CountPayloads(t, ps).perType[kind] == t.perType[kind] + CountIf(ps, OfKind(kind))
    {
      KindCounted(t, ps, kind);
    }
    ErrorsCounted(t, ps);
    BytesCounted(t, ps);
    TypesCounted(t, ps);
  }

  lemma {:induction false} CountAppend(t: Tally, ps: seq<seq<byte>>, qs: seq<seq<byte>>)
    requires |t.perType| == 256
    ensures CountPayloads(t, ps + qs) == CountPayloads(CountPayloads(t, ps), qs)
    decreases ps
  {
    if ps == [] {
      assert ps + qs == qs;
    } else {
      assert (ps + qs)[1..] == ps[1..] + qs;
      CountAppend(CountPayload(t, ps[0]), ps[1..], qs);
    }
  }

  // ---- delivering ----

  function AsSeq(ev: Option<Event>): seq<Event> {
    if ev.None? then [] else [ev.value]
  }

  function EventsIn(ps: seq<seq<byte>>): seq<Event> {
    if ps == [] then [] else AsSeq(EventIn(ps[0])) + EventsIn(ps[1..])
  }

  lemma {:induction false} EventsAppend(ps: seq<seq<byte>>, qs: seq<seq<byte>>)
    ensures EventsIn(ps + qs) == EventsIn(ps) + EventsIn(qs)
  {
    hide EventIn, AsSeq;
    if ps == [] {
      assert ps + qs == qs;
    } else {
      EventsAppend(ps[1..], qs);
      assert (ps + qs)[1..] == ps[1..] + qs && (ps + qs)[0] == ps[0];
      var first := AsSeq(EventIn(ps[0]));
      assert first + (EventsIn(ps[1..]) + EventsIn(qs)) == (first + EventsIn(ps[1..])) + EventsIn(qs);
    }
  }

  /** What a parse of a buffer leaves behind and how many bytes it says it consumed. A cut frame at the end counts
      as an error, and its prefix as consumed. */
  datatype Outcome = Outcome(state: State, tally: Tally, consumed: nat)

  function Parse(limits: Limits, st: State, t: Tally, buf: seq<byte>): Outcome
    requires |t.perType| == 256
  {
    var feed := Split(buf);
    var counted := CountPayloads(t, feed.payloads);
    Outcome(Run(limits, st, EventsIn(feed.payloads)),
            if |feed.rest| >= 2 then CountError(counted) else counted,
            |Join(feed.payloads)| + if |feed.rest| >= 2 then 2 else 0)
  }

  /** The accounting of a parse, on arbitrary bytes. */
  lemma ParseAccounts(limits: Limits, st: State, buf: seq<byte>)
    ensures var feed, o := Split(buf), Parse(limits, st, ZERO_TALLY, buf);
            var cut := if |feed.rest| >= 2 then 1 else 0;
            && o.consumed
               == o.tally.totalBytes + o.tally.totalFramingBytes + 2 * CountIf(feed.payloads, Empty) + 2 * cut
            && o.consumed <= |buf| && (cut == 0 ==> |buf| - o.consumed <= 1)
            && o.tally.parseErrors == CountIf(feed.payloads, Empty) + CountIf(feed.payloads, Unknown) + cut
            && o.tally.truncatedMessages == CountIf(feed.payloads, Short)
            && o.tally.totalMessages == |feed.payloads| - CountIf(feed.payloads, Empty) == Sum(o.tally.perType)
  {
    hide Split, Join, CountPayloads;
    JoinSplit(buf);
    SumZero(256);
    CountsAreExact(ZERO_TALLY, Split(buf).payloads);
  }

  lemma {:induction false} SumZero(n: nat)
    ensures Sum(seq(n, _ => 0)) == 0
  {
    if n > 0 {
      SumZero(n - 1);
      assert seq(n, _ => 0)[1..] == seq(n - 1, _ => 0);
    }
  }

  /** Parsing complete frames and then another buffer is parsing both at once. */
  lemma ParseInPieces(limits: Limits, st: State, t: Tally, a: seq<byte>, b: seq<byte>)
    requires |t.perType| == 256 && Split(a).rest == []
    ensures var first := Parse(limits, st, t, a);
            var second := Parse(limits, first.state, first.tally, b);
            Parse(limits, st, t, a + b) == second.(consumed := first.consumed + second.consumed)
  {
    hide Split, Join, CountPayloads, EventsIn, Run;
    var ps, qs := Split(a).payloads, Split(b).payloads;
    SplitAppend(a, b);
    JoinAppend(ps, qs);
    CountAppend(t, ps, qs);
    EventsAppend(ps, qs);
    RunAppend(limits, st, EventsIn(ps), EventsIn(qs));
  }

  // ---- one frame at a time ----

  /** The market after a payload. */
  function Delivered(limits: Limits, st: State, p: seq<byte>): State {
    if EventIn(p).Some? then Step(limits, st, EventIn(p).value) else st
  }

  predicate Deliverable(limits: Limits, m: Market, p: seq<byte>) {
    EventIn(p).Some? ==> Admissible(limits, m, EventIn(p).value)
  }

  lemma ParseFrame(limits: Limits, st: State, t: Tally, buf: seq<byte>)
    requires |t.perType| == 256 && StartsFrame(buf)
    ensures var n := Announced(buf);
            var p, later := buf[2..2 + n], buf[2 + n..];
            var o := Parse(limits, Delivered(limits, st, p), CountPayload(t, p), later);
            && Parse(limits, st, t, buf) == o.(consumed := 2 + n + o.consumed)
            && EventsIn(Split(buf).payloads) == AsSeq(EventIn(p)) + EventsIn(Split(later).payloads)
  {
    hide EventIn, Step, CountPayload;
    var n := Announced(buf);
    FromBEBound(buf[..2]);
    PowIs();
    var p, later := buf[2..2 + n], Split(buf[2 + n..]);
    assert ([p] + later.payloads)[1..] == later.payloads;
    RunAppend(limits, st, AsSeq(EventIn(p)), EventsIn(later.payloads));
    RunOne(limits, st, EventIn(p));
  }

  lemma RunOne(limits: Limits, st: State, ev: Option<Event>)
    ensures Run(limits, st, AsSeq(ev)) == if ev.Some? then Step(limits, st, ev.value) else st
  {
    if ev.Some? {
      assert [ev.value][..0] == [];
    }
  }

  lemma ParseEnd(limits: Limits, st: State, t: Tally, buf: seq<byte>)
    requires |t.perType| == 256 && !StartsFrame(buf)
    ensures Parse(limits, st, t, buf) == if |buf| >= 2 then Outcome(st, CountError(t), 2) else Outcome(st, t, 0)
  {
  }

  /** A run is admissible event by event. */
  lemma {:induction false} AdmissibleAppend(limits: Limits, st: State, a: seq<Event>, b: seq<Event>)
    ensures AdmissibleRun(limits, st, a + b)
            <==> AdmissibleRun(limits, st, a) && AdmissibleRun(limits, Run(limits, st, a), b)
  {
    if b == [] {
      assert a + b == a;
    } else {
      AdmissibleAppend(limits, st, a, b[..|b| - 1]);
      RunAppend(limits, st, a, b[..|b| - 1]);
      assert (a + b)[..|a + b| - 1] == a + b[..|b| - 1];
    }
  }

  lemma AdmissibleFrame(limits: Limits, st: State, buf: seq<byte>)
    requires StartsFrame(buf) && AdmissibleRun(limits, st, EventsIn(Split(buf).payloads))
    ensures var n := Announced(buf);
            var p, later := buf[2..2 + n], buf[2 + n..];
            Deliverable(limits, st.market, p)
                && AdmissibleRun(limits, Delivered(limits, st, p), EventsIn(Split(later).payloads))
  {
    hide EventIn, Step, Split, EventsIn, Admissible;
    var n := Announced(buf);
    var p, later := buf[2..2 + n], buf[2 + n..];
    ParseFrame(limits, st, ZERO_TALLY, buf);
    AdmissibleAppend(limits, st, AsSeq(EventIn(p)), EventsIn(Split(later).payloads));
    RunOne(limits, st, EventIn(p));
    if EventIn(p).Some? {
      assert [EventIn(p).value][..0] == [];
    }
  }

  // ---- the round trip ----

  function Encoded(evs: seq<Event>, others: seq<Other>): seq<seq<byte>>
    requires |evs| == |others|
  {
    if evs == [] then [] else [Encode(evs[0], others[0])] + Encoded(evs[1..], others[1..])
  }

  lemma {:induction false} EncodedPayloads(evs: seq<Event>, others: seq<Other>)
    requires |evs| == |others| && forall i :: 0 <= i < |evs| ==> Encodable(evs[i], others[i])
    ensures var ps := Encoded(evs, others);
            && |ps| == |evs| && Framable(ps) && EventsIn(ps) == evs
            && CountIf(ps, Empty) == CountIf(ps, Unknown) == CountIf(ps, Short) == 0
  {
    hide EventIn, Encode;
    if evs != [] {
      EncodedPayloads(evs[1..], others[1..]);
      EventRoundTrip(evs[0], others[0]);
      assert evs == [evs[0]] + evs[1..];
    }
  }

  /** Framing any list of messages and parsing the result delivers exactly that list, consumes the whole buffer and
      counts no error. */
  lemma FeedRoundTrip(limits: Limits, st: State, evs: seq<Event>, others: seq<Other>)
    requires |evs| == |others| && forall i :: 0 <= i < |evs| ==> Encodable(evs[i], others[i])
    ensures var buf := Join(Encoded(evs, others));
            var o := Parse(limits, st, ZERO_TALLY, buf);
            && o.state == Run(limits, st, evs) && o.consumed == |buf|
            && o.tally.totalMessages == |evs| && o.tally.parseErrors == 0 && o.tally.truncatedMessages == 0
  {
    hide Split, Join, CountPayloads, EventsIn, Run, Encoded;
    var ps := Encoded(evs, others);
    EncodedPayloads(evs, others);
    SplitJoin(ps, []);
    assert Join(ps) + [] == Join(ps);
    ParseAccounts(limits, st, Join(ps));
  }
}
