/** Doubly linked lists threaded through pool slots. Both the queue of orders in a level and the list of
    levels on a side are such lists. */
module IntrusiveLists {
  import opened Types

  /** The objects of q are linked both ways in the order of q, and q has no repetitions: next and prev are
      mutually inverse and a walk cannot cycle. */
  ghost predicate Linked<T>(mem: seq<Cell<T>>, q: seq<Ptr>) {
    && Distinct(q)
    && forall k :: 0 <= k < |q| ==>
         Live(mem, q[k]) && mem[q[k]].next == At(q, k + 1) && mem[q[k]].prev == At(q, k - 1)
  }

  /** The same slots hold the same values, and only links of the objects in q may differ. */
  ghost predicate Relinked<T>(mem: seq<Cell<T>>, mem': seq<Cell<T>>, q: seq<Ptr>) {
    && |mem'| == |mem|
    && forall p :: 0 <= p < |mem| ==>
         if p in q then mem[p].Object? && mem'[p].Object? && mem'[p].value == mem[p].value else mem'[p] == mem[p]
  }

  function SetNext<T>(mem: seq<Cell<T>>, p: Ptr, x: Ptr): seq<Cell<T>>
    requires Live(mem, p)
  {
    mem[p := mem[p].(next := x)]
  }

  function SetPrev<T>(mem: seq<Cell<T>>, p: Ptr, x: Ptr): seq<Cell<T>>
    requires Live(mem, p)
  {
    mem[p := mem[p].(prev := x)]
  }

  /** What the code writes to put p between two neighbours. */
  function Spliced<T>(mem: seq<Cell<T>>, before: Ptr, p: Ptr, after: Ptr): (mem': seq<Cell<T>>)
    requires Live(mem, p) && (before != NULL ==> Live(mem, before)) && (after != NULL ==> Live(mem, after))
    ensures |mem'| == |mem|
  {
    var mem1 := SetNext(SetPrev(mem, p, before), p, after);
    var mem2 := if before == NULL then mem1 else SetNext(mem1, before, p);
    if after == NULL then mem2 else SetPrev(mem2, after, p)
  }

  /** What the code writes to take p out: its neighbours' links, then its own. */
  function Unlinked<T>(mem: seq<Cell<T>>, p: Ptr): (mem': seq<Cell<T>>)
    requires Live(mem, p)
    requires mem[p].prev != NULL ==> Live(mem, mem[p].prev)
    requires mem[p].next != NULL ==> Live(mem, mem[p].next)
    ensures |mem'| == |mem|
  {
    var before, after := mem[p].prev, mem[p].next;
    var mem1 := if before == NULL then mem else SetNext(mem, before, after);
    var mem2 := if after == NULL then mem1 else SetPrev(mem1, after, before);
    SetNext(SetPrev(mem2, p, NULL), p, NULL)
  }

  lemma LinkedIs<T>(mem: seq<Cell<T>>, q: seq<Ptr>)
    requires Distinct(q)
    requires forall k :: 0 <= k < |q| ==>
               Live(mem, q[k]) && mem[q[k]].next == At(q, k + 1) && mem[q[k]].prev == At(q, k - 1)
    ensures Linked(mem, q)
  {
  }

  lemma LinkedDistinct<T>(mem: seq<Cell<T>>, q: seq<Ptr>)
    requires Linked(mem, q)
    ensures Distinct(q)
  {
  }

  lemma Neighbours<T>(mem: seq<Cell<T>>, q: seq<Ptr>, k: nat)
    requires Linked(mem, q) && k < |q|
    ensures Live(mem, q[k]) && mem[q[k]].next == At(q, k + 1) && mem[q[k]].prev == At(q, k - 1)
    ensures if k + 1 == |q| then At(q, k + 1) == NULL else Live(mem, At(q, k + 1)) && At(q, k + 1) != q[k]
    ensures if k == 0 then At(q, k - 1) == NULL else Live(mem, At(q, k - 1)) && At(q, k - 1) != q[k]
    ensures 0 < k < |q| - 1 ==> At(q, k - 1) != At(q, k + 1)
  {
    assert k + 1 < |q| ==> Live(mem, q[k + 1]);
    assert k > 0 ==> Live(mem, q[k - 1]);
  }

  /** The list depends on nothing but the cells of its members. */
  lemma LinkedFrame<T>(mem: seq<Cell<T>>, mem': seq<Cell<T>>, q: seq<Ptr>)
    requires Linked(mem, q) && |mem'| == |mem|
    requires forall p :: 0 <= p < |mem| && p in q && mem[p].Object? ==>
               mem'[p].Object? && mem'[p].next == mem[p].next && mem'[p].prev == mem[p].prev
    ensures Linked(mem', q)
  {
  }

  lemma SameMember<T>(mem: seq<Cell<T>>, q: seq<Ptr>, i: int, j: nat)
    requires Linked(mem, q) && j < |q|
    ensures At(q, i) == q[j] <==> i == j
    ensures At(q, i) == NULL <==> !(0 <= i < |q|)
    ensures Live(mem, q[j]) && (At(q, i) != NULL ==> Live(mem, At(q, i)))
  {
    if 0 <= i < |q| { assert Live(mem, q[i]); }
    assert Live(mem, q[j]);
  }

  // ---- insertion ----

  lemma SpliceEffect<T>(mem: seq<Cell<T>>, mem': seq<Cell<T>>, q: seq<Ptr>, r: seq<Ptr>, k: nat, p: Ptr, i: nat)
    requires Linked(mem, q) && k <= |q| && Live(mem, p) && p !in q
    requires r == q[..k] + [p] + q[k..] && i < |r|
    requires At(q, k - 1) != NULL ==> Live(mem, At(q, k - 1))
    requires At(q, k) != NULL ==> Live(mem, At(q, k))
    requires mem' == Spliced(mem, At(q, k - 1), p, At(q, k))
    ensures Live(mem', r[i]) && mem'[r[i]].next == At(r, i + 1) && mem'[r[i]].prev == At(r, i - 1)
  {
    hide Linked;
    if i != k {
      var j := if i < k then i else i - 1;
      assert r[i] == q[j];
      Neighbours(mem, q, j);
      SameMember(mem, q, k - 1, j);
      SameMember(mem, q, k, j);
    }
  }

  /** Putting p between positions k-1 and k of the list. With k == |q| this is push_back. */
  lemma InsertKeepsLinked<T>(mem: seq<Cell<T>>, q: seq<Ptr>, k: nat, p: Ptr)
    requires Linked(mem, q) && k <= |q| && Live(mem, p) && p !in q
    ensures if k == 0 then At(q, k - 1) == NULL else Live(mem, At(q, k - 1)) && At(q, k - 1) != p
    ensures if k == |q| then At(q, k) == NULL else Live(mem, At(q, k)) && At(q, k) != p
    ensures var mem' := Spliced(mem, At(q, k - 1), p, At(q, k));
            && Linked(mem', q[..k] + [p] + q[k..])
            && Relinked(mem, mem', q[..k] + [p] + q[k..])
  {
    hide Spliced, Linked, Relinked;
    if k > 0 { Neighbours(mem, q, k - 1); }
    if k < |q| { Neighbours(mem, q, k); }
    var r := q[..k] + [p] + q[k..];
    var mem' := Spliced(mem, At(q, k - 1), p, At(q, k));
    assert k > 0 ==> q[k - 1] in r by { assert k > 0 ==> r[k - 1] == q[k - 1]; }
    assert k < |q| ==> q[k] in r by { assert k < |q| ==> r[k + 1] == q[k]; }
    assert p in r by { assert r[k] == p; }
    InsertDistinct(mem, q, k, p);
    SpliceRelinks(mem, q, r, k, p);
    forall i | 0 <= i < |r|
      ensures Live(mem', r[i]) && mem'[r[i]].next == At(r, i + 1) && mem'[r[i]].prev == At(r, i - 1)
    {
      SpliceEffect(mem, mem', q, r, k, p, i);
    }
    LinkedIs(mem', r);
  }

  lemma InsertDistinct<T>(mem: seq<Cell<T>>, q: seq<Ptr>, k: nat, p: Ptr)
    requires Linked(mem, q) && k <= |q| && p !in q
    ensures Distinct(q[..k] + [p] + q[k..])
  {
  }

  lemma SpliceRelinks<T>(mem: seq<Cell<T>>, q: seq<Ptr>, r: seq<Ptr>, k: nat, p: Ptr)
    requires Linked(mem, q) && k <= |q| && Live(mem, p) && r == q[..k] + [p] + q[k..]
    requires k > 0 ==> q[k - 1] in r && Live(mem, q[k - 1])
    requires k < |q| ==> q[k] in r && Live(mem, q[k])
    requires p in r
    ensures Relinked(mem, Spliced(mem, At(q, k - 1), p, At(q, k)), r)
  {
    hide Relinked, Spliced;
    forall x | 0 <= x < |mem| && x in r
      ensures mem[x].Object?
    {
      if x != p { assert x in q; }
    }
    SpliceTouches(mem, At(q, k - 1), p, At(q, k), r);
  }

  /** Splicing writes nothing but links of the new object and its neighbours. */
  lemma SpliceTouches<T>(mem: seq<Cell<T>>, before: Ptr, p: Ptr, after: Ptr, r: seq<Ptr>)
    requires Live(mem, p) && (before != NULL ==> Live(mem, before)) && (after != NULL ==> Live(mem, after))
    requires p in r && (before != NULL ==> before in r) && (after != NULL ==> after in r)
    requires forall x :: 0 <= x < |mem| && x in r ==> mem[x].Object?
    ensures Relinked(mem, Spliced(mem, before, p, after), r)
  {
  }

  // ---- removal ----

  lemma UnlinkEffect<T>(mem: seq<Cell<T>>, q: seq<Ptr>, k: nat, j: nat)
    requires Linked(mem, q) && k < |q| && j < |q| && j != k
    ensures At(q, k + 1) != NULL ==> Live(mem, At(q, k + 1))
    ensures At(q, k - 1) != NULL ==> Live(mem, At(q, k - 1))
    ensures var mem' := Unlinked(mem, q[k]);
            && Live(mem', q[j])
            && mem'[q[j]].next == At(q, if j == k - 1 then k + 1 else j + 1)
            && mem'[q[j]].prev == At(q, if j == k + 1 then k - 1 else j - 1)
  {
    hide Linked;
    Neighbours(mem, q, k);
    Neighbours(mem, q, j);
    SameMember(mem, q, k - 1, j);
    SameMember(mem, q, k, j);
    SameMember(mem, q, k + 1, j);
  }

  lemma UnlinkRelinks<T>(mem: seq<Cell<T>>, q: seq<Ptr>, k: nat)
    requires Linked(mem, q) && k < |q|
    ensures At(q, k + 1) != NULL ==> Live(mem, At(q, k + 1))
    ensures At(q, k - 1) != NULL ==> Live(mem, At(q, k - 1))
    ensures Relinked(mem, Unlinked(mem, q[k]), q)
    ensures Distinct(q[..k] + q[k + 1..])
    ensures forall i :: 0 <= i < |q| ==> Live(mem, q[i])
  {
    Neighbours(mem, q, k);
  }

  lemma UnlinkLinked<T>(mem: seq<Cell<T>>, mem': seq<Cell<T>>, q: seq<Ptr>, r: seq<Ptr>, k: nat)
    requires Linked(mem, q) && k < |q| && r == q[..k] + q[k + 1..] && Distinct(r)
    requires At(q, k + 1) != NULL ==> Live(mem, At(q, k + 1))
    requires At(q, k - 1) != NULL ==> Live(mem, At(q, k - 1))
    requires Live(mem, q[k]) && mem' == Unlinked(mem, q[k])
    ensures Linked(mem', r)
  {
    hide Unlinked, Linked;
    forall i | 0 <= i < |r|
      ensures Live(mem', r[i]) && mem'[r[i]].next == At(r, i + 1) && mem'[r[i]].prev == At(r, i - 1)
    {
      UnlinkEffect(mem, q, k, if i < k then i else i + 1);
    }
    LinkedIs(mem', r);
  }

  /** Unlinking the member at position k leaves the rest linked in the same order. */
  lemma UnlinkKeepsLinked<T>(mem: seq<Cell<T>>, q: seq<Ptr>, k: nat)
    requires Linked(mem, q) && k < |q|
    ensures Live(mem, q[k]) && mem[q[k]].next == At(q, k + 1) && mem[q[k]].prev == At(q, k - 1)
    ensures if k + 1 == |q| then At(q, k + 1) == NULL else Live(mem, At(q, k + 1)) && At(q, k + 1) != q[k]
    ensures if k == 0 then At(q, k - 1) == NULL else Live(mem, At(q, k - 1)) && At(q, k - 1) != q[k]
    ensures var mem' := Unlinked(mem, q[k]);
            && Linked(mem', q[..k] + q[k + 1..]) && Relinked(mem, mem', q)
  {
    hide Unlinked, Linked, Relinked, Distinct;
    Neighbours(mem, q, k);
    UnlinkRelinks(mem, q, k);
    UnlinkLinked(mem, Unlinked(mem, q[k]), q, q[..k] + q[k + 1..], k);
  }

  // ---- the writes themselves ----

  method Splice<T>(mem: array<Cell<T>>, before: Ptr, p: Ptr, after: Ptr)
    requires Live(mem[..], p)
    requires before != NULL ==> Live(mem[..], before)
    requires after != NULL ==> Live(mem[..], after)
    modifies mem
    ensures mem[..] == Spliced(old(mem[..]), before, p, after)
  {
    mem[p] := mem[p].(prev := before);
    mem[p] := mem[p].(next := after);
    if before != NULL {
      mem[before] := mem[before].(next := p);
    }
    if after != NULL {
      mem[after] := mem[after].(prev := p);
    }
  }

  method Unsplice<T>(mem: array<Cell<T>>, p: Ptr)
    requires Live(mem[..], p)
    requires mem[p].prev != NULL ==> Live(mem[..], mem[p].prev)
    requires mem[p].next != NULL ==> Live(mem[..], mem[p].next)
    modifies mem
    ensures mem[..] == Unlinked(old(mem[..]), p)
  {
    var before, after := mem[p].prev, mem[p].next;
    if before != NULL {
      mem[before] := mem[before].(next := after);
    }
    if after != NULL {
      mem[after] := mem[after].(prev := before);
    }
    mem[p] := mem[p].(prev := NULL);
    mem[p] := mem[p].(next := NULL);
  }
}
