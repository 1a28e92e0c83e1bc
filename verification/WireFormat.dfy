/** The records of TotalView-ITCH 5.0 (sections 1.1 to 1.8) as lists of field widths, and the size registry. */
module WireFormats {
  import opened Types

  /** The fields of each record, after one byte of type, two of stock locate, two of tracking number and six of
      timestamp, which all records begin with. */
  function Layout(kind: byte): seq<nat> {
    match kind as char
    case 'A' => [1, 2, 2, 6, 8, 1, 4, 8, 4]
    case 'F' => [1, 2, 2, 6, 8, 1, 4, 8, 4, 4]
    case 'E' => [1, 2, 2, 6, 8, 4, 8]
    case 'C' => [1, 2, 2, 6, 8, 4, 8, 1, 4]
    case 'X' => [1, 2, 2, 6, 8, 4]
    case 'D' => [1, 2, 2, 6, 8]
    case 'U' => [1, 2, 2, 6, 8, 8, 4, 4]
    case 'P' => [1, 2, 2, 6, 8, 1, 4, 8, 4, 8]
    case 'Q' => [1, 2, 2, 6, 8, 8, 4, 8, 1]
    case 'B' => [1, 2, 2, 6, 8]
    case 'S' => [1, 2, 2, 6, 1]
    case 'R' => [1, 2, 2, 6, 8, 1, 1, 4, 1, 1, 2, 1, 1, 1, 1, 1, 4, 1]
    case 'H' => [1, 2, 2, 6, 8, 1, 1, 4]
    case 'Y' => [1, 2, 2, 6, 8, 1]
    case 'L' => [1, 2, 2, 6, 4, 8, 1, 1, 1]
    case 'V' => [1, 2, 2, 6, 8, 8, 8]
    case 'W' => [1, 2, 2, 6, 1]
    case 'K' => [1, 2, 2, 6, 8, 4, 1, 4]
    case 'J' => [1, 2, 2, 6, 8, 4, 4, 4, 4]
    case 'h' => [1, 2, 2, 6, 8, 1, 1]
    case 'I' => [1, 2, 2, 6, 8, 8, 1, 8, 4, 4, 4, 1, 1]
    case 'N' => [1, 2, 2, 6, 8, 1]
    case 'O' => [1, 2, 2, 6, 8, 1, 4, 4, 4, 8, 4, 4]
    case _ => []
  }

  /** Where field k of a record begins. */
  function OffsetOf(fields: seq<nat>, k: nat): nat
    requires k <= |fields|
  {
    if k == 0 then 0 else OffsetOf(fields, k - 1) + fields[k - 1]
  }

  datatype MsgMeta = MsgMeta(kind: byte, size: nat)

  const MSG_META: seq<MsgMeta> := [
    MsgMeta('S' as int, 12), MsgMeta('R' as int, 39), MsgMeta('H' as int, 25), MsgMeta('Y' as int, 20),
    MsgMeta('L' as int, 26), MsgMeta('V' as int, 35), MsgMeta('W' as int, 12), MsgMeta('K' as int, 28),
    MsgMeta('J' as int, 35), MsgMeta('h' as int, 21), MsgMeta('A' as int, 36), MsgMeta('F' as int, 40),
    MsgMeta('E' as int, 31), MsgMeta('C' as int, 36), MsgMeta('X' as int, 23), MsgMeta('D' as int, 19),
    MsgMeta('U' as int, 35), MsgMeta('P' as int, 44), MsgMeta('Q' as int, 40), MsgMeta('B' as int, 19),
    MsgMeta('I' as int, 50), MsgMeta('N' as int, 20), MsgMeta('O' as int, 48)]

  /** The size of the record of each message type; 0 for an unknown type. */
  function PayloadSize(kind: byte): nat {
    match kind as char
    case 'S' | 'W' => 12
    case 'D' | 'B' => 19
    case 'Y' | 'N' => 20
    case 'h' => 21
    case 'X' => 23
    case 'H' => 25
    case 'L' => 26
    case 'K' => 28
    case 'E' => 31
    case 'V' | 'J' | 'U' => 35
    case 'A' | 'C' => 36
    case 'R' => 39
    case 'F' | 'Q' => 40
    case 'P' => 44
    case 'O' => 48
    case 'I' => 50
    case _ => 0
  }

  /** wire_payload_size */
  method WirePayloadSize(kind: byte) returns (size: nat)
    ensures size == PayloadSize(kind)
  {
    var i := 0;
    while i < |MSG_META|
      invariant 0 <= i <= |MSG_META|
      invariant forall j :: 0 <= j < i ==> MSG_META[j].kind != kind
    {
      if MSG_META[i].kind == kind {
        RegisteredSize(i);
        return MSG_META[i].size;
      }
      i := i + 1;
    }
    Unregistered(kind);
    return 0;
  }

  lemma Unregistered(kind: byte)
    requires forall i :: 0 <= i < |MSG_META| ==> MSG_META[i].kind != kind
    ensures PayloadSize(kind) == 0
  {
    assert MSG_META[0].kind != kind && MSG_META[1].kind != kind && MSG_META[2].kind != kind && MSG_META[3].kind != kind
           && MSG_META[4].kind != kind && MSG_META[5].kind != kind && MSG_META[6].kind != kind
               && MSG_META[7].kind != kind
           && MSG_META[8].kind != kind && MSG_META[9].kind != kind && MSG_META[10].kind != kind
               && MSG_META[11].kind != kind
           && MSG_META[12].kind != kind && MSG_META[13].kind != kind && MSG_META[14].kind != kind
               && MSG_META[15].kind != kind
           && MSG_META[16].kind != kind && MSG_META[17].kind != kind && MSG_META[18].kind != kind
               && MSG_META[19].kind != kind
           && MSG_META[20].kind != kind && MSG_META[21].kind != kind && MSG_META[22].kind != kind;
  }

  lemma RegisteredSize(i: nat)
    requires i < |MSG_META|
    ensures PayloadSize(MSG_META[i].kind) == MSG_META[i].size
  {
  }

  /** The offsets and the size noted beside each record are the running sums of its field widths. */
  function Offsets(kind: byte): seq<nat> {
    match kind as char
    case 'A' => [0, 1, 3, 5, 11, 19, 20, 24, 32, 36]
    case 'F' => [0, 1, 3, 5, 11, 19, 20, 24, 32, 36, 40]
    case 'E' => [0, 1, 3, 5, 11, 19, 23, 31]
    case 'C' => [0, 1, 3, 5, 11, 19, 23, 31, 32, 36]
    case 'X' => [0, 1, 3, 5, 11, 19, 23]
    case 'D' => [0, 1, 3, 5, 11, 19]
    case 'U' => [0, 1, 3, 5, 11, 19, 27, 31, 35]
    case 'P' => [0, 1, 3, 5, 11, 19, 20, 24, 32, 36, 44]
    case 'Q' => [0, 1, 3, 5, 11, 19, 27, 31, 39, 40]
    case 'B' => [0, 1, 3, 5, 11, 19]
    case 'S' => [0, 1, 3, 5, 11, 12]
    case 'R' => [0, 1, 3, 5, 11, 19, 20, 21, 25, 26, 27, 29, 30, 31, 32, 33, 34, 38, 39]
    case 'H' => [0, 1, 3, 5, 11, 19, 20, 21, 25]
    case 'Y' => [0, 1, 3, 5, 11, 19, 20]
    case 'L' => [0, 1, 3, 5, 11, 15, 23, 24, 25, 26]
    case 'V' => [0, 1, 3, 5, 11, 19, 27, 35]
    case 'W' => [0, 1, 3, 5, 11, 12]
    case 'K' => [0, 1, 3, 5, 11, 19, 23, 24, 28]
    case 'J' => [0, 1, 3, 5, 11, 19, 23, 27, 31, 35]
    case 'h' => [0, 1, 3, 5, 11, 19, 20, 21]
    case 'I' => [0, 1, 3, 5, 11, 19, 27, 28, 36, 40, 44, 48, 49, 50]
    case 'N' => [0, 1, 3, 5, 11, 19, 20]
    case 'O' => [0, 1, 3, 5, 11, 19, 20, 24, 28, 32, 40, 44, 48]
    case _ => [0]
  }

  lemma OffsetsAreSums(kind: byte)
    ensures var widths, offsets := Layout(kind), Offsets(kind);
            |offsets| == |widths| + 1 && forall k :: 0 <= k <= |widths| ==> OffsetOf(widths, k) == offsets[k]
  {
    RunningSums(kind);
    SumsAreOffsets(Layout(kind), Offsets(kind), |Layout(kind)|);
  }

  /** Every offset noted is the sum of the widths before it, and the last one the size of the record. */
  ghost predicate AddUp(kind: byte) {
    var widths, offsets := Layout(kind), Offsets(kind);
    && |offsets| == |widths| + 1 && offsets[0] == 0 && offsets[|widths|] == PayloadSize(kind)
    && forall k :: 0 <= k < |widths| ==> offsets[k + 1] == offsets[k] + widths[k]
  }

  lemma OrderSums(kind: byte)
    requires kind as char in {'A', 'F', 'E', 'C', 'X', 'D', 'U'}
    ensures AddUp(kind)
  {
  }

  lemma TradeSums(kind: byte)
    requires kind as char in {'P', 'Q', 'B', 'S', 'N'}
    ensures AddUp(kind)
  {
  }

  lemma StockSums(kind: byte)
    requires kind as char in {'H', 'Y', 'L', 'V'}
    ensures AddUp(kind)
  {
  }

  lemma HaltSums(kind: byte)
    requires kind as char in {'W', 'K', 'J', 'h'}
    ensures AddUp(kind)
  {
  }

  lemma ImbalanceSums(kind: byte)
    requires kind as char in {'I', 'O'}
    ensures AddUp(kind)
  {
  }

  lemma DirectorySums(kind: byte)
    requires kind as char in {'R'}
    ensures AddUp(kind)
  {
  }

  lemma UnknownSums(kind: byte)
    requires PayloadSize(kind) == 0
    ensures AddUp(kind)
  {
  }

  lemma RunningSums(kind: byte)
    ensures AddUp(kind)
  {
    hide Layout, Offsets;
    if kind as char in {'A', 'F', 'E', 'C', 'X', 'D', 'U'} {
      OrderSums(kind);
    } else if kind as char in {'P', 'Q', 'B', 'S', 'N'} {
      TradeSums(kind);
    } else if kind as char in {'H', 'Y', 'L', 'V'} {
      StockSums(kind);
    } else if kind as char in {'W', 'K', 'J', 'h'} {
      HaltSums(kind);
    } else if kind as char in {'I', 'O'} {
      ImbalanceSums(kind);
    } else if kind as char in {'R'} {
      DirectorySums(kind);
    } else {
      UnknownSums(kind);
    }
  }

  lemma {:induction false} SumsAreOffsets(widths: seq<nat>, offsets: seq<nat>, n: nat)
    requires n <= |widths| && |offsets| == |widths| + 1 && offsets[0] == 0
    requires forall k :: 0 <= k < |widths| ==> offsets[k + 1] == offsets[k] + widths[k]
    ensures forall k :: 0 <= k <= n ==> OffsetOf(widths, k) == offsets[k]
  {
    if n > 0 {
      SumsAreOffsets(widths, offsets, n - 1);
      assert offsets[n - 1 + 1] == offsets[n - 1] + widths[n - 1];
    }
  }

  /** The asserted record sizes are the sums of the field widths. */
  lemma SizesAreSums(kind: byte)
    ensures PayloadSize(kind) == OffsetOf(Layout(kind), |Layout(kind)|)
  {
    hide Layout, Offsets, PayloadSize;
    RunningSums(kind);
    OffsetsAreSums(kind);
  }

  // ---- records as sequences of fields ----

  function Concat(fields: seq<seq<byte>>, n: nat): seq<byte>
    requires n <= |fields|
  {
    if n == 0 then [] else Concat(fields, n - 1) + fields[n - 1]
  }

  predicate Fits(fields: seq<seq<byte>>, widths: seq<nat>) {
    |fields| == |widths| && forall k :: 0 <= k < |widths| ==> |fields[k]| == widths[k]
  }

  lemma {:induction false} ConcatSize(fields: seq<seq<byte>>, widths: seq<nat>, n: nat)
    requires Fits(fields, widths) && n <= |widths|
    ensures |Concat(fields, n)| == OffsetOf(widths, n)
  {
    if n > 0 {
      ConcatSize(fields, widths, n - 1);
    }
  }

  /** A field is found at its offset, whatever the other fields hold. */
  lemma {:induction false} FieldAt(fields: seq<seq<byte>>, widths: seq<nat>, k: nat, n: nat)
    requires Fits(fields, widths) && k < n <= |widths|
    ensures 0 <= OffsetOf(widths, k) <= OffsetOf(widths, k) + widths[k] <= |Concat(fields, n)|
    ensures Concat(fields, n)[OffsetOf(widths, k)..OffsetOf(widths, k) + widths[k]] == fields[k]
  {
    ConcatSize(fields, widths, n);
    ConcatSize(fields, widths, n - 1);
    if k < n - 1 {
      FieldAt(fields, widths, k, n - 1);
    }
  }

  /** All fields of a record of known kind, at the offsets noted beside them. */
  lemma FieldsAt(fields: seq<seq<byte>>, kind: byte)
    requires Layout(kind) != [] && Fits(fields, Layout(kind))
    ensures |Concat(fields, |fields|)| == PayloadSize(kind) == Offsets(kind)[|fields|]
            && |Offsets(kind)| == |fields| + 1
    ensures forall k :: 0 <= k < |fields| ==>
              && Offsets(kind)[k] <= Offsets(kind)[k] + |fields[k]| <= |Concat(fields, |fields|)|
              && Concat(fields, |fields|)[Offsets(kind)[k]..Offsets(kind)[k] + |fields[k]|] == fields[k]
  {
    var widths := Layout(kind);
    OffsetsAreSums(kind);
    SizesAreSums(kind);
    ConcatSize(fields, widths, |fields|);
    forall k | 0 <= k < |fields|
      ensures Offsets(kind)[k] <= Offsets(kind)[k] + |fields[k]| <= |Concat(fields, |fields|)|
      ensures Concat(fields, |fields|)[Offsets(kind)[k]..Offsets(kind)[k] + |fields[k]|] == fields[k]
    {
      FieldAt(fields, widths, k, |fields|);
    }
  }
}
