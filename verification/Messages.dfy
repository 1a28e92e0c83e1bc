/** What a message payload delivers to the engine, and how the messages are encoded. */
module Messages {
  import opened Types
  import opened Endian
  import opened WireFormats
  import opened Markets

  datatype Option<T> = None | Some(value: T)

  // ---- decoding ----

  function Field(p: seq<byte>, from: nat, size: nat): nat
    requires from + size <= |p|
  {
    FromBE(p[from..from + size])
  }

  function U16At(p: seq<byte>, from: nat): u16
    requires from + 2 <= |p|
  {
    FromBEBound(p[from..from + 2]);
    PowIs();
    Field(p, from, 2)
  }

  function U32At(p: seq<byte>, from: nat): u32
    requires from + 4 <= |p|
  {
    FromBEBound(p[from..from + 4]);
    PowIs();
    Field(p, from, 4)
  }

  function U48At(p: seq<byte>, from: nat): u64
    requires from + 6 <= |p|
  {
    FromBEBound(p[from..from + 6]);
    PowIs();
    Field(p, from, 6)
  }

  function U64At(p: seq<byte>, from: nat): u64
    requires from + 8 <= |p|
  {
    FromBEBound(p[from..from + 8]);
    PowIs();
    Field(p, from, 8)
  }

  predicate Known(kind: byte) {
    PayloadSize(kind) > 0
  }

  /** The message types that reach a book handler of the engine. */
  predicate BookKind(kind: byte) {
    kind as char in {'A', 'F', 'E', 'C', 'X', 'D', 'U', 'P', 'Q', 'B'}
  }

  predicate Complete(p: seq<byte>) {
    p != [] && |p| >= PayloadSize(p[0])
  }

  /** The call a complete payload makes on the engine, field by field; other messages make none that the market
      could see. */
  function EventIn(p: seq<byte>): Option<Event> {
    if p == [] || !Complete(p) then None
    else
      match p[0] as char
      case 'A' => Some(Add(U16At(p, 1), U64At(p, 11), p[19], U32At(p, 20), U32At(p, 32), U48At(p, 5), NO_MPID, false))
      case 'F' => Some(Add(U16At(p, 1), U64At(p, 11), p[19], U32At(p, 20), U32At(p, 32), U48At(p, 5), p[36..40], true))
      case 'E' => Some(Execute(U16At(p, 1), U64At(p, 11), U32At(p, 19), U64At(p, 23)))
      case 'C' => Some(ExecuteAt(U16At(p, 1), U64At(p, 11), U32At(p, 19), U64At(p, 23), p[31], U32At(p, 32)))
      case 'X' => Some(Cancel(U16At(p, 1), U64At(p, 11), U32At(p, 19)))
      case 'D' => Some(Delete(U16At(p, 1), U64At(p, 11)))
      case 'U' => Some(Replace(U16At(p, 1), U64At(p, 11), U64At(p, 19), U32At(p, 27), U32At(p, 31), U48At(p, 5)))
      case 'P' => Some(Trade(U16At(p, 1), U32At(p, 20), U32At(p, 32), U64At(p, 36)))
      case 'Q' => Some(Cross(U16At(p, 1), p[39]))
      case 'B' => Some(Broken(U16At(p, 1), U64At(p, 11)))
      case _ => None
  }

  // ---- decoding, byte by byte ----

  function Two(p: seq<byte>, at: nat): int
    requires at + 2 <= |p|
  {
    var hi: int, lo: int := p[at], p[at + 1];
    0x100 * hi + lo
  }

  function Four(p: seq<byte>, at: nat): int
    requires at + 4 <= |p|
  {
    0x1_0000 * Two(p, at) + Two(p, at + 2)
  }

  function Six(p: seq<byte>, at: nat): int
    requires at + 6 <= |p|
  {
    0x1_0000_0000 * Two(p, at) + Four(p, at + 2)
  }

  function Eight(p: seq<byte>, at: nat): int
    requires at + 8 <= |p|
  {
    0x1_0000_0000 * Four(p, at) + Four(p, at + 4)
  }

  lemma FromBETwo(s: seq<byte>)
    requires |s| >= 2
    ensures FromBE(s) == 0x1_0000 * FromBE(s[..|s| - 2]) + Two(s, |s| - 2)
  {
    assert s[..|s| - 1][..|s| - 2] == s[..|s| - 2];
  }

  lemma FieldIsSum(p: seq<byte>, at: nat, n: nat)
    requires n >= 2 && at + n <= |p|
    ensures Field(p, at, n) == 0x1_0000 * Field(p, at, n - 2) + Two(p, at + n - 2)
  {
    hide FromBE;
    FromBETwo(p[at..at + n]);
    assert p[at..at + n][..n - 2] == p[at..at + n - 2];
  }

  /** The numbers read from a payload are the sums of its bytes, the first byte weighing most. */
  lemma FieldBytes(p: seq<byte>, at: nat)
    ensures at + 2 <= |p| ==> U16At(p, at) == Two(p, at)
    ensures at + 4 <= |p| ==> U32At(p, at) == Four(p, at)
    ensures at + 6 <= |p| ==> U48At(p, at) == Six(p, at)
    ensures at + 8 <= |p| ==> U64At(p, at) == Eight(p, at)
  {
    if at + 2 <= |p| { FieldIsSum(p, at, 2); }
    if at + 4 <= |p| { FieldIsSum(p, at, 4); }
    if at + 6 <= |p| { FieldIsSum(p, at, 6); }
    if at + 8 <= |p| { FieldIsSum(p, at, 8); }
  }

  /** 'A' and 'F': reference number at 11, side at 19, shares at 20, price at 32, firm at 36. */
  lemma AddBytes(p: seq<byte>)
    requires Complete(p) && p[0] as char in {'A', 'F'}
    ensures EventIn(p).Some?
    ensures var ev := EventIn(p).value;
            && |p| >= 36 && ev.Add? && (ev.attributed <==> p[0] == 'F' as int)
            && ev.loc == Two(p, 1) && ev.ts == Six(p, 5) && ev.id == Eight(p, 11) && ev.indicator == p[19]
            && ev.qty == Four(p, 20) && ev.px == Four(p, 32)
            && (ev.attributed ==> |p| >= 40 && ev.mpid == [p[36], p[37], p[38], p[39]])
  {
    hide Field;
    FieldBytes(p, 1); FieldBytes(p, 5); FieldBytes(p, 11); FieldBytes(p, 20); FieldBytes(p, 32);
  }

  /** 'E', 'C' and 'X': reference number at 11, shares at 19, match number at 23, printable at 31, price at 32. */
  lemma TakeBytes(p: seq<byte>)
    requires Complete(p) && p[0] as char in {'E', 'C', 'X'}
    ensures EventIn(p).Some?
    ensures var ev := EventIn(p).value;
            && |p| >= 23
            && (ev.Execute? <==> p[0] == 'E' as int) && (ev.ExecuteAt? <==> p[0] == 'C' as int)
            && (ev.Cancel? <==> p[0] == 'X' as int) && (ev.Execute? || ev.ExecuteAt? || ev.Cancel?)
            && ev.loc == Two(p, 1) && ev.id == Eight(p, 11) && ev.qty == Four(p, 19)
            && (!ev.Cancel? ==> |p| >= 31 && ev.matchNumber == Eight(p, 23))
            && (ev.ExecuteAt? ==> |p| >= 36 && ev.printable == p[31] && ev.px == Four(p, 32))
  {
    hide Field;
    FieldBytes(p, 1); FieldBytes(p, 11); FieldBytes(p, 19); FieldBytes(p, 23); FieldBytes(p, 32);
  }

  /** 'D' and 'U': reference number at 11, new reference number at 19, shares at 27, price at 31. */
  lemma ReplaceBytes(p: seq<byte>)
    requires Complete(p) && p[0] as char in {'D', 'U'}
    ensures EventIn(p).Some?
    ensures var ev := EventIn(p).value;
            && |p| >= 19 && (ev.Delete? <==> p[0] == 'D' as int) && (ev.Replace? <==> p[0] == 'U' as int)
            && (ev.Delete? || ev.Replace?) && ev.loc == Two(p, 1) && ev.id == Eight(p, 11)
            && (ev.Replace? ==> |p| >= 35 && ev.ts == Six(p, 5) && ev.newId == Eight(p, 19) && ev.qty == Four(p, 27)
                                && ev.px == Four(p, 31))
  {
    hide Field;
    FieldBytes(p, 1); FieldBytes(p, 5); FieldBytes(p, 11); FieldBytes(p, 19); FieldBytes(p, 27); FieldBytes(p, 31);
  }

  /** 'P', 'Q' and 'B': shares at 20, price at 32 and match number at 36; cross type at 39; match number at 11. */
  lemma TradeBytes(p: seq<byte>)
    requires Complete(p) && p[0] as char in {'P', 'Q', 'B'}
    ensures EventIn(p).Some?
    ensures var ev := EventIn(p).value;
            && |p| >= 19 && ev.loc == Two(p, 1)
            && (p[0] == 'P' as int ==> |p| >= 44 && ev.Trade? && ev.qty == Four(p, 20) && ev.px == Four(p, 32)
                                       && ev.matchNumber == Eight(p, 36))
            && (p[0] == 'Q' as int ==> |p| >= 40 && ev.Cross? && ev.kind == p[39])
            && (p[0] == 'B' as int ==> ev.Broken? && ev.matchNumber == Eight(p, 11))
  {
    hide Field;
    FieldBytes(p, 1); FieldBytes(p, 11); FieldBytes(p, 20); FieldBytes(p, 32); FieldBytes(p, 36);
  }

  // ---- encoding ----

  /** The fields that a message carries and the engine is not handed. */
  datatype Other = Other(tracking: u16, ts: u64, stock: seq<byte>, ref: u64, side: byte, shares: u64, px: u32,
      matchNumber: u64)

  function KindOf(ev: Event): byte {
    match ev
    case Add(_, _, _, _, _, _, _, attributed) => if attributed then 'F' as int else 'A' as int
    case Execute(_, _, _, _) => 'E' as int
    case ExecuteAt(_, _, _, _, _, _) => 'C' as int
    case Cancel(_, _, _) => 'X' as int
    case Delete(_, _) => 'D' as int
    case Replace(_, _, _, _, _, _) => 'U' as int
    case Trade(_, _, _, _) => 'P' as int
    case Cross(_, _) => 'Q' as int
    case Broken(_, _) => 'B' as int
  }

  /** Timestamps have six bytes, attributions four, stock symbols eight, and an unattributed add names no firm. */
  predicate Encodable(ev: Event, r: Other) {
    && |r.stock| == 8 && r.ts < 0x1_0000_0000_0000
    && (ev.Add? ==> ev.ts < 0x1_0000_0000_0000 && |ev.mpid| == 4 && (!ev.attributed ==> ev.mpid == NO_MPID))
    && (ev.Replace? ==> ev.ts < 0x1_0000_0000_0000)
  }

  function Header(ev: Event, r: Other): seq<seq<byte>> {
    [[KindOf(ev)], ToBE(ev.loc, 2), ToBE(r.tracking, 2), ToBE(if ev.Add? || ev.Replace? then ev.ts else r.ts, 6)]
  }

  function Fields(ev: Event, r: Other): seq<seq<byte>> {
    Header(ev, r) +
    match ev
    case Add(_, id, indicator, qty, px, _, mpid, attributed) =>
      [ToBE(id, 8), [indicator], ToBE(qty, 4), r.stock, ToBE(px, 4)] + if attributed then [mpid] else []
    case Execute(_, id, qty, matchNumber) => [ToBE(id, 8), ToBE(qty, 4), ToBE(matchNumber, 8)]
    case ExecuteAt(_, id, qty, matchNumber, printable, px) =>
      [ToBE(id, 8), ToBE(qty, 4), ToBE(matchNumber, 8), [printable], ToBE(px, 4)]
    case Cancel(_, id, qty) => [ToBE(id, 8), ToBE(qty, 4)]
    case Delete(_, id) => [ToBE(id, 8)]
    case Replace(_, id, newId, qty, px, _) => [ToBE(id, 8), ToBE(newId, 8), ToBE(qty, 4), ToBE(px, 4)]
    case Trade(_, qty, px, matchNumber) =>
      [ToBE(r.ref, 8), [r.side], ToBE(qty, 4), r.stock, ToBE(px, 4), ToBE(matchNumber, 8)]
    case Cross(_, kind) => [ToBE(r.shares, 8), r.stock, ToBE(r.px, 4), ToBE(r.matchNumber, 8), [kind]]
    case Broken(_, matchNumber) => [ToBE(matchNumber, 8)]
  }

  function Encode(ev: Event, r: Other): seq<byte> {
    Concat(Fields(ev, r), |Fields(ev, r)|)
  }

  lemma FieldsFit(ev: Event, r: Other)
    requires Encodable(ev, r)
    ensures Layout(KindOf(ev)) != [] && Fits(Fields(ev, r), Layout(KindOf(ev)))
  {
    hide ToBE;
  }

  /** Where the fields of an encoded message are. */
  lemma EncodedAt(ev: Event, r: Other, k: nat)
    requires Encodable(ev, r) && k < |Fields(ev, r)| && k < |Offsets(KindOf(ev))|
    ensures var from, p := Offsets(KindOf(ev))[k], Encode(ev, r);
            && |p| == PayloadSize(KindOf(ev)) > 0
            && from + |Fields(ev, r)[k]| <= |p| && p[from..from + |Fields(ev, r)[k]|] == Fields(ev, r)[k]
  {
    hide Fields, ToBE, Concat, Encodable, Fits;
    FieldsFit(ev, r);
    FieldsAt(Fields(ev, r), KindOf(ev));
  }

  lemma NumberAt(ev: Event, r: Other, k: nat, v: nat, n: nat)
    requires Encodable(ev, r) && k < |Fields(ev, r)| && k < |Offsets(KindOf(ev))| && Fields(ev, r)[k] == ToBE(v, n)
             && v < Pow256(n)
    ensures var from, p := Offsets(KindOf(ev))[k], Encode(ev, r); from + n <= |p| && Field(p, from, n) == v
  {
    hide Fields, ToBE, FromBE, Encodable, Encode, Offsets, PayloadSize;
    EncodedAt(ev, r, k);
    DecodeEncode(v, n);
  }

  lemma ByteAt(ev: Event, r: Other, k: nat, b: byte)
    requires Encodable(ev, r) && k < |Fields(ev, r)| && k < |Offsets(KindOf(ev))| && Fields(ev, r)[k] == [b]
    ensures var from, p := Offsets(KindOf(ev))[k], Encode(ev, r); from < |p| && p[from] == b
  {
    hide Fields, Encodable, Encode, Offsets, PayloadSize;
    EncodedAt(ev, r, k);
    var from, p := Offsets(KindOf(ev))[k], Encode(ev, r);
    assert p[from] == p[from..from + 1][0];
  }

  lemma CommonFields(ev: Event, r: Other)
    requires Encodable(ev, r)
    ensures var p := Encode(ev, r);
            && |p| == PayloadSize(KindOf(ev)) >= 19 && p[0] == KindOf(ev) && U16At(p, 1) == ev.loc
            && (ev.Add? || ev.Replace? ==> U48At(p, 5) == ev.ts)
  {
    hide ToBE, FromBE, Encode;
    PowIs();
    EncodedAt(ev, r, 0);
    ByteAt(ev, r, 0, KindOf(ev));
    NumberAt(ev, r, 1, ev.loc, 2);
    if ev.Add? || ev.Replace? {
      NumberAt(ev, r, 3, ev.ts, 6);
    }
  }

  lemma IdAt(ev: Event, r: Other)
    requires Encodable(ev, r) && !ev.Trade? && !ev.Cross? && !ev.Broken?
    ensures |Encode(ev, r)| >= 19 && U64At(Encode(ev, r), 11) == ev.id
  {
    hide ToBE, FromBE, Encode;
    PowIs();
    CommonFields(ev, r);
    NumberAt(ev, r, 4, ev.id, 8);
  }

  lemma AddRoundTrip(ev: Event, r: Other)
    requires Encodable(ev, r) && ev.Add?
    ensures EventIn(Encode(ev, r)) == Some(ev)
  {
    hide ToBE, FromBE, Encode;
    PowIs();
    CommonFields(ev, r);
    IdAt(ev, r);
    ByteAt(ev, r, 5, ev.indicator);
    NumberAt(ev, r, 6, ev.qty, 4);
    NumberAt(ev, r, 8, ev.px, 4);
    if ev.attributed {
      EncodedAt(ev, r, 9);
    }
  }

  lemma TakeRoundTrip(ev: Event, r: Other)
    requires Encodable(ev, r) && (ev.Execute? || ev.ExecuteAt? || ev.Cancel?)
    ensures EventIn(Encode(ev, r)) == Some(ev)
  {
    hide ToBE, FromBE, Encode;
    PowIs();
    CommonFields(ev, r);
    IdAt(ev, r);
    NumberAt(ev, r, 5, ev.qty, 4);
    if !ev.Cancel? {
      NumberAt(ev, r, 6, ev.matchNumber, 8);
    }
    if ev.ExecuteAt? {
      ByteAt(ev, r, 7, ev.printable);
      NumberAt(ev, r, 8, ev.px, 4);
    }
  }

  lemma ReplaceRoundTrip(ev: Event, r: Other)
    requires Encodable(ev, r) && (ev.Replace? || ev.Delete?)
    ensures EventIn(Encode(ev, r)) == Some(ev)
  {
    hide ToBE, FromBE, Encode;
    PowIs();
    CommonFields(ev, r);
    IdAt(ev, r);
    if ev.Replace? {
      NumberAt(ev, r, 5, ev.newId, 8);
      NumberAt(ev, r, 6, ev.qty, 4);
      NumberAt(ev, r, 7, ev.px, 4);
    }
  }

  lemma TradeRoundTrip(ev: Event, r: Other)
    requires Encodable(ev, r) && (ev.Trade? || ev.Cross? || ev.Broken?)
    ensures EventIn(Encode(ev, r)) == Some(ev)
  {
    hide ToBE, FromBE, Encode;
    PowIs();
    CommonFields(ev, r);
    match ev
    case Trade(_, qty, px, matchNumber) =>
      NumberAt(ev, r, 6, qty, 4);
      NumberAt(ev, r, 8, px, 4);
      NumberAt(ev, r, 9, matchNumber, 8);
    case Cross(_, kind) => ByteAt(ev, r, 8, kind);
    case Broken(_, matchNumber) => NumberAt(ev, r, 4, matchNumber, 8);
  }

  /** Decoding an encoded message gives every field back, whatever the undelivered fields hold. */
  lemma EventRoundTrip(ev: Event, r: Other)
    requires Encodable(ev, r)
    ensures |Encode(ev, r)| == PayloadSize(KindOf(ev)) > 0 && Encode(ev, r)[0] == KindOf(ev)
    ensures EventIn(Encode(ev, r)) == Some(ev)
  {
    hide Encode, EventIn, Encodable;
    CommonFields(ev, r);
    match ev
    case Add(_, _, _, _, _, _, _, _) => AddRoundTrip(ev, r);
    case Execute(_, _, _, _) => TakeRoundTrip(ev, r);
    case ExecuteAt(_, _, _, _, _, _) => TakeRoundTrip(ev, r);
    case Cancel(_, _, _) => TakeRoundTrip(ev, r);
    case Delete(_, _) => ReplaceRoundTrip(ev, r);
    case Replace(_, _, _, _, _, _) => ReplaceRoundTrip(ev, r);
    case _ => TradeRoundTrip(ev, r);
  }
}
