/** Bitwise operations on natural numbers. */
module Bits {

  /** Bitwise or. */
  function Or(a: nat, b: nat): nat
    decreases a + b
  {
    if a == 0 && b == 0 then 0
    else 2 * Or(a / 2, b / 2) + if a % 2 == 1 || b % 2 == 1 then 1 else 0
  }

  function Pow2(n: nat): (r: nat)
    ensures r > 0
  {
    if n == 0 then 1 else 2 * Pow2(n - 1)
  }

  lemma {:induction false} OrZero(a: nat)
    ensures Or(a, 0) == a
    decreases a
  {
    if a > 0 {
      OrZero(a / 2);
    }
  }

  /** Bits that cannot meet add up. */
  lemma {:induction false} OrOfDisjointIsSum(high: nat, low: nat, n: nat)
    requires low < Pow2(n)
    ensures Or(high * Pow2(n), low) == high * Pow2(n) + low
  {
    if n == 0 {
      OrZero(high);
    } else {
      var a := high * Pow2(n);
      assert a == 2 * (high * Pow2(n - 1));
      OrOfDisjointIsSum(high, low / 2, n - 1);
    }
  }

  /** Bitwise and. */
  function And(a: nat, b: nat): nat
    decreases a + b
  {
    if a == 0 || b == 0 then 0
    else 2 * And(a / 2, b / 2) + if a % 2 == 1 && b % 2 == 1 then 1 else 0
  }

  /** Masking with a power of two less one is the remainder: how the hash tables, the order index and the log ring
      turn a number into a slot. */
  lemma {:induction false} MaskIsRemainder(a: nat, n: nat)
    ensures And(a, Pow2(n) - 1) == a % Pow2(n)
  {
    if n > 0 && a > 0 {
      var half := Pow2(n - 1);
      assert (2 * half - 1) / 2 == half - 1 && (2 * half - 1) % 2 == 1;
      MaskIsRemainder(a / 2, n - 1);
      HalfRemainder(a, half);
    } else if n > 0 {
      RemainderIs(0, Pow2(n), 0, 0);
    }
  }

  lemma HalfRemainder(a: nat, m: nat)
    requires m > 0
    ensures a % (2 * m) == 2 * (a / 2 % m) + a % 2
  {
    var h := a / 2;
    var q, r := h / m, h % m;
    assert h == q * m + r;
    assert a == 2 * h + a % 2;
    Double(q, m);
    RemainderIs(a, 2 * m, q, 2 * r + a % 2);
  }

  lemma Double(q: nat, m: nat)
    ensures q * (2 * m) == 2 * (q * m)
  {
  }

  lemma RemainderIs(a: nat, m: nat, q: nat, r: nat)
    requires r < m && a == q * m + r
    ensures a % m == r
  {
    var d := a / m - q;
    assert d * m == r - a % m;
    NoMultipleBetween(d, m, r - a % m);
  }

  lemma NoMultipleBetween(d: int, m: int, x: int)
    requires d * m == x && -m < x < m
    ensures x == 0
  {
    MultipleBound(d, m);
    MultipleBound(-d, m);
  }

  lemma MultipleBound(d: int, m: int)
    requires m > 0
    ensures d >= 1 ==> d * m >= m
    ensures (-d) * m == -(d * m)
  {
  }
}
