/** Network byte order: what the load helpers compute on a little-endian and on a big-endian host. */
module Endian {
  import opened Types
  import opened Bits

  function Pow256(n: nat): (r: nat)
    ensures r > 0
  {
    if n == 0 then 1 else 256 * Pow256(n - 1)
  }

  /** The number whose base-256 digits are s, most significant first. */
  function FromBE(s: seq<byte>): nat {
    if s == [] then 0 else FromBE(s[..|s| - 1]) * 256 + s[|s| - 1]
  }

  function ToBE(v: nat, n: nat): (s: seq<byte>)
    ensures |s| == n
  {
    if n == 0 then [] else ToBE(v / 256, n - 1) + [v % 256]
  }

  /** What memcpy of s into an integer gives on a little-endian host. */
  function FromLE(s: seq<byte>): nat {
    if s == [] then 0 else s[0] + 256 * FromLE(s[1..])
  }

  lemma {:induction false} FromBEBound(s: seq<byte>)
    ensures FromBE(s) < Pow256(|s|)
  {
    if s != [] {
      FromBEBound(s[..|s| - 1]);
    }
  }

  /** Encoding and decoding are inverse to each other. */
  lemma {:induction false} DecodeEncode(v: nat, n: nat)
    requires v < Pow256(n)
    ensures FromBE(ToBE(v, n)) == v
  {
    if n > 0 {
      DecodeEncode(v / 256, n - 1);
      assert ToBE(v, n)[..n - 1] == ToBE(v / 256, n - 1);
    }
  }

  lemma {:induction false} EncodeDecode(s: seq<byte>)
    ensures ToBE(FromBE(s), |s|) == s
  {
    if s != [] {
      EncodeDecode(s[..|s| - 1]);
      assert s == s[..|s| - 1] + [s[|s| - 1]];
    }
  }

  // ---- byte swapping ----

  /** std::byteswap of an integer of n bytes: the lowest byte becomes the highest. */
  function Bswap(v: nat, n: nat): nat {
    if n == 0 then 0 else (v % 256) * Pow256(n - 1) + Bswap(v / 256, n - 1)
  }

  lemma {:induction false} LeadingDigit(s: seq<byte>)
    requires s != []
    ensures FromBE(s) == s[0] * Pow256(|s| - 1) + FromBE(s[1..])
  {
    if |s| > 1 {
      var init, last := s[..|s| - 1], s[|s| - 1];
      LeadingDigit(init);
      assert init[1..] == s[1..][..|s| - 2];
      MoreDigits(s[0], Pow256(|s| - 2), FromBE(init[1..]), last);
    }
  }

  lemma MoreDigits(a: nat, unit: nat, b: nat, c: nat)
    ensures (a * unit + b) * 256 + c == a * (256 * unit) + (b * 256 + c)
  {
  }

  /** Swapping what a little-endian host has loaded gives the big-endian value. */
  lemma {:induction false} SwapOfLittleIsBig(s: seq<byte>)
    ensures Bswap(FromLE(s), |s|) == FromBE(s)
  {
    if s != [] {
      SwapOfLittleIsBig(s[1..]);
      LeadingDigit(s);
      LowestDigit(s[0], FromLE(s[1..]));
    }
  }

  lemma LowestDigit(d: byte, v: nat)
    ensures (d + 256 * v) % 256 == d && (d + 256 * v) / 256 == v
  {
  }

  // ---- loads ----

  method LoadBE16(p: seq<byte>, littleEndian: bool) returns (v: u16)
    requires |p| == 2
    ensures v == FromBE(p)
  {
    FromBEBound(p);
    SwapOfLittleIsBig(p);
    PowIs();
    LittleBound(p);
    v := if littleEndian then FromLE(p) else FromBE(p);
    if littleEndian {
      v := Bswap(v, 2);
    }
  }

  method LoadBE32(p: seq<byte>, littleEndian: bool) returns (v: u32)
    requires |p| == 4
    ensures v == FromBE(p)
  {
    FromBEBound(p);
    SwapOfLittleIsBig(p);
    PowIs();
    LittleBound(p);
    v := if littleEndian then FromLE(p) else FromBE(p);
    if littleEndian {
      v := Bswap(v, 4);
    }
  }

  method LoadBE64(p: seq<byte>, littleEndian: bool) returns (v: u64)
    requires |p| == 8
    ensures v == FromBE(p)
  {
    FromBEBound(p);
    SwapOfLittleIsBig(p);
    PowIs();
    LittleBound(p);
    v := if littleEndian then FromLE(p) else FromBE(p);
    if littleEndian {
      v := Bswap(v, 8);
    }
  }

  lemma PowIs()
    ensures Pow256(2) == 0x1_0000 && Pow256(4) == 0x1_0000_0000 && Pow256(6) == 0x1_0000_0000_0000
    ensures Pow256(8) == 0x1_0000_0000_0000_0000
  {
  }

  lemma {:induction false} LittleBound(s: seq<byte>)
    ensures FromLE(s) < Pow256(|s|)
  {
    if s != [] {
      LittleBound(s[1..]);
    }
  }

  // ---- the 48-bit load ----

  function Shl(v: nat, n: nat): nat {
    v * Pow2(n) % 0x1_0000_0000_0000_0000
  }

  lemma {:induction false} BytesAreBits(k: nat)
    ensures Pow2(8 * k) == Pow256(k)
  {
    if k > 0 {
      BytesAreBits(k - 1);
      var n := 8 * k;
      assert Pow2(n) == 2 * Pow2(n - 1) && Pow2(n - 1) == 2 * Pow2(n - 2);
      assert Pow2(n - 2) == 2 * Pow2(n - 3) && Pow2(n - 3) == 2 * Pow2(n - 4);
      assert Pow2(n - 4) == 2 * Pow2(n - 5) && Pow2(n - 5) == 2 * Pow2(n - 6);
      assert Pow2(n - 6) == 2 * Pow2(n - 7) && Pow2(n - 7) == 2 * Pow2(n - 8);
    }
  }

  lemma {:induction false} PowProduct(a: nat, b: nat)
    ensures Pow256(a) * Pow256(b) == Pow256(a + b)
  {
    if a > 0 {
      PowProduct(a - 1, b);
    }
  }

  /** A shifted byte loses no bit as long as the result has at most six bytes. */
  lemma ShiftedByte(d: byte, j: nat)
    requires j < 6
    ensures Shl(d, 8 * j) == d * Pow256(j) < Pow256(j + 1)
  {
    BytesAreBits(j);
    PowProduct(j + 1, 5 - j);
    PowIs();
    ProductBound(d, 256, Pow256(j));
    assert Pow256(j + 1) * 1 <= Pow256(j + 1) * Pow256(5 - j);
  }

  lemma ProductBound(a: nat, b: nat, c: nat)
    requires a < b && c > 0
    ensures a * c < b * c
  {
  }

  lemma OrStep(p: seq<byte>, k: nat, v: nat)
    requires |p| == 6 && k < 6 && v == FromBE(p[..k]) * Pow256(6 - k)
    ensures Or(v, Shl(p[k], 8 * (5 - k))) == FromBE(p[..k + 1]) * Pow256(5 - k) < 0x1_0000_0000_0000
  {
    hide Or, Shl, Pow2, FromBE;
    var j, high, d := 5 - k, FromBE(p[..k]), p[k] as nat;
    ShiftedByte(d, j);
    BytesAreBits(j + 1);
    OrOfDisjointIsSum(high, d * Pow256(j), 8 * (j + 1));
    NextDigit(p, k);
    Regroup(high, d, Pow256(j));
    FitsSixBytes(p[..k + 1], j);
  }

  lemma Regroup(high: nat, d: nat, unit: nat)
    ensures high * (256 * unit) + d * unit == (high * 256 + d) * unit
  {
  }

  lemma FitsSixBytes(s: seq<byte>, j: nat)
    requires |s| + j == 6
    ensures FromBE(s) * Pow256(j) < 0x1_0000_0000_0000
  {
    hide FromBE;
    FromBEBound(s);
    ProductBound(FromBE(s), Pow256(|s|), Pow256(j));
    PowProduct(|s|, j);
    PowIs();
  }

  lemma NextDigit(p: seq<byte>, k: nat)
    requires k < |p|
    ensures FromBE(p[..k + 1]) == FromBE(p[..k]) * 256 + p[k]
  {
    assert p[..k + 1][..k] == p[..k];
  }

  /** load_be48: six bytes, each shifted to its place. */
  method LoadBE48(p: seq<byte>) returns (v: u64)
    requires |p| == 6
    ensures v == FromBE(p) < 0x1_0000_0000_0000
  {
    hide Or, Shl, Pow2, Pow256, FromBE;
    Start(p);
    v := 0;
    OrStep(p, 0, v);
    v := Or(v, Shl(p[0], 40));
    OrStep(p, 1, v);
    v := Or(v, Shl(p[1], 32));
    OrStep(p, 2, v);
    v := Or(v, Shl(p[2], 24));
    OrStep(p, 3, v);
    v := Or(v, Shl(p[3], 16));
    OrStep(p, 4, v);
    v := Or(v, Shl(p[4], 8));
    OrStep(p, 5, v);
    v := Or(v, Shl(p[5], 0));
  }

  lemma Start(p: seq<byte>)
    requires |p| == 6
    ensures FromBE(p[..0]) == 0 && Pow256(0) == 1 && p[..6] == p
  {
  }
}
