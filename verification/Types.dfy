/** Machine integers, pool slots and the records that live in them. */
module Types {

  type byte = x: int | 0 <= x < 0x100
  type u16 = x: int | 0 <= x < 0x1_0000
  type u32 = x: int | 0 <= x < 0x1_0000_0000
  type u64 = x: int | 0 <= x < 0x1_0000_0000_0000_0000

  /** A pointer into a memory pool is the number of the slot it points to. */
  type Ptr = int
  const NULL: Ptr := -1

  /** The price that no order may have: it marks the empty slots of a price table. */
  const NO_PRICE: u32 := 0xFFFF_FFFF

  type OrderId = u64
  type Mpid = seq<byte>
  const NO_MPID: Mpid := [32, 32, 32, 32]

  datatype Side = Buy | Sell

  /** to_side: every indicator other than 'B' counts as a sell. */
  function ToSide(indicator: byte): Side {
    if indicator == 'B' as int then Buy else Sell
  }

  datatype Order = Order(id: OrderId, locate: u16, price: u32, shares: u32, side: Side, ts: u64, mpid: Mpid)

  datatype Level = Level(price: u32, total: u64, head: Ptr, tail: Ptr, count: u32, side: Side)

  /** One slot of raw pool memory: an object with the two intrusive links that orders and price levels both
      embed, or a free slot, whose link has overwritten the object that was there, so that nothing of a
      released object can be read back. */
  datatype Cell<T> = Node(link: Ptr) | Object(value: T, prev: Ptr, next: Ptr)

  /** p points at a constructed object of mem. */
  ghost predicate Live<T>(mem: seq<Cell<T>>, p: Ptr) {
    0 <= p < |mem| && mem[p].Object?
  }

  /** The k-th element of a list of pointers, or the null pointer just outside it. */
  function At(s: seq<Ptr>, k: int): Ptr {
    if 0 <= k < |s| then s[k] else NULL
  }

  ghost predicate Distinct<T>(s: seq<T>) {
    forall i, j :: 0 <= i < j < |s| ==> s[i] != s[j]
  }

  lemma RemovalSize<K, V>(m: map<K, V>, k: K)
    requires k in m
    ensures |m - {k}| == |m| - 1
  {
    assert (m - {k}).Keys == m.Keys - {k};
  }

  lemma DistinctConcat<T>(a: seq<T>, b: seq<T>)
    requires Distinct(a) && Distinct(b)
    requires forall x :: x in a ==> x !in b
    ensures Distinct(a + b)
  {
    forall i, j | 0 <= i < j < |a + b|
      ensures (a + b)[i] != (a + b)[j]
    {
      if i < |a| <= j {
        assert a[i] in a && b[j - |a|] in b;
      } else if |a| <= i {
        assert b[i - |a|] != b[j - |a|];
      }
    }
  }

  /** s without the first occurrence of x. */
  function Without<T(==)>(s: seq<T>, x: T): seq<T> {
    if s == [] then []
    else if s[0] == x then s[1..]
    else [s[0]] + Without(s[1..], x)
  }

  lemma {:induction false} WithoutAt<T>(s: seq<T>, k: nat)
    requires Distinct(s) && k < |s|
    ensures Without(s, s[k]) == s[..k] + s[k + 1..]
  {
    if k > 0 {
      WithoutAt(s[1..], k - 1);
    }
  }

  lemma {:induction false} WithoutMembers<T>(s: seq<T>, x: T)
    requires Distinct(s)
    ensures Distinct(Without(s, x))
    ensures forall y :: y in Without(s, x) <==> y in s && y != x
  {
    if s != [] {
      assert s == [s[0]] + s[1..];
      assert forall i :: 1 <= i < |s| ==> s[i] != s[0];
      assert s[0] !in s[1..];
      if s[0] != x {
        WithoutMembers(s[1..], x);
        assert s[0] !in Without(s[1..], x);
      }
    }
  }

  /** A list without repetitions has as many elements as the set it lists. */
  lemma {:induction false} DistinctCardinality<T>(s: seq<T>, elems: set<T>)
    requires Distinct(s)
    requires forall x :: x in elems <==> x in s
    ensures |elems| == |s|
  {
    if s == [] {
      assert elems == {};
    } else {
      var last := s[|s| - 1];
      var rest := s[..|s| - 1];
      assert s == rest + [last];
      DistinctCardinality(rest, elems - {last});
    }
  }

  /** Pigeonhole: distinct slots of a pool, and how many of them there can be. */
  lemma {:induction false} DistinctBound(s: seq<Ptr>, n: nat)
    requires Distinct(s)
    requires forall k :: 0 <= k < |s| ==> 0 <= s[k] < n
    ensures |s| <= n
  {
    var elems := set p | p in s;
    DistinctCardinality(s, elems);
    SubsetCardinality(elems, Range(n));
  }

  function Range(n: nat): (r: set<nat>)
    ensures forall p :: p in r <==> 0 <= p < n
    ensures |r| == n
  {
    if n == 0 then {} else Range(n - 1) + {n - 1}
  }

  lemma {:induction false} SubsetCardinality<T>(a: set<T>, b: set<T>)
    requires a <= b
    ensures |a| <= |b|
    ensures |a| == |b| ==> a == b
  {
    assert b == a + (b - a);
    assert |b| == |a| + |b - a|;
  }
}
