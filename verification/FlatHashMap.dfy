/** The open-addressing table behind the price-to-level lookup: linear probing with wraparound and no
    tombstones. Everything is stated for an arbitrary hash function and an arbitrary positive capacity;
    masking with a power of two minus one is the remainder by that power. */
module FlatHashMaps {
  import opened Types

  /** The key that marks an empty slot: no level has this price. */
  const EMPTY_KEY: u32 := NO_PRICE

  // ---- positions on the ring of n slots ----

  function Home(hash: u32 -> nat, n: nat, k: u32): (h: nat)
    requires n > 0
    ensures h < n
  {
    hash(k) % n
  }

  function Next(i: nat, n: nat): nat {
    if i + 1 == n then 0 else i + 1
  }

  /** How many steps of the probe sequence lead from slot a to slot b. */
  function Dist(a: nat, b: nat, n: nat): int {
    if a <= b then b - a else b - a + n
  }

  // ---- the table invariant ----

  /** No empty slot lies between the home of a key and the slot that holds it. */
  ghost predicate Probeable(keys: seq<u32>, hash: u32 -> nat)
    requires |keys| > 0
  {
    forall s, t :: 0 <= s < |keys| && 0 <= t < |keys| && keys[s] != EMPTY_KEY && keys[t] == EMPTY_KEY ==>
      Dist(Home(hash, |keys|, keys[s]), t, |keys|) >= Dist(Home(hash, |keys|, keys[s]), s, |keys|)
  }

  ghost predicate Unique(keys: seq<u32>) {
    forall s, t :: 0 <= s < |keys| && 0 <= t < |keys| && keys[s] == keys[t] && keys[s] != EMPTY_KEY ==> s == t
  }

  /** The occupied slots are exactly the entries of m, each once. */
  ghost predicate Holds<V>(keys: seq<u32>, values: seq<V>, m: map<u32, V>) {
    && |values| == |keys|
    && Unique(keys)
    && (forall s :: 0 <= s < |keys| && keys[s] != EMPTY_KEY ==> keys[s] in m && m[keys[s]] == values[s])
    && (forall k :: k in m ==> k != EMPTY_KEY && k in keys)
  }

  lemma HeldKeysAreUnique<V>(keys: seq<u32>, values: seq<V>, m: map<u32, V>)
    requires Holds(keys, values, m)
    ensures Unique(keys)
  {
  }

  lemma HeldEntry<V>(keys: seq<u32>, values: seq<V>, m: map<u32, V>, s: nat)
    requires Holds(keys, values, m) && s < |keys| && keys[s] != EMPTY_KEY
    ensures s < |values| && keys[s] in m && m[keys[s]] == values[s]
  {
  }

  // ---- probing ----

  /** The slot at which probing for k stops: the first empty slot or slot of k from i on, or |keys| if the
      next `left` slots have neither. */
  function StopFrom(keys: seq<u32>, k: u32, i: nat, left: nat): nat
    requires i < |keys|
    decreases left
  {
    if left == 0 then |keys|
    else if keys[i] == EMPTY_KEY || keys[i] == k then i
    else StopFrom(keys, k, Next(i, |keys|), left - 1)
  }

  function Stop(keys: seq<u32>, hash: u32 -> nat, k: u32): nat
    requires |keys| > 0
  {
    StopFrom(keys, k, Home(hash, |keys|, k), |keys|)
  }

  lemma {:induction false} StopFromIsFirst(keys: seq<u32>, k: u32, h: nat, i: nat, left: nat)
    requires h < |keys| && i < |keys|
    requires left <= |keys|
    requires left == 0 || Dist(h, i, |keys|) == |keys| - left
    requires forall t :: 0 <= t < |keys| && Dist(h, t, |keys|) < |keys| - left ==> keys[t] != EMPTY_KEY && keys[t] != k
    ensures var s := StopFrom(keys, k, i, left);
            && s <= |keys|
            && (s < |keys| ==> keys[s] == EMPTY_KEY || keys[s] == k)
            && forall t :: 0 <= t < |keys| && (s < |keys| ==> Dist(h, t, |keys|) < Dist(h, s, |keys|)) ==>
                 keys[t] != EMPTY_KEY && keys[t] != k
    decreases left
  {
    if left > 0 && keys[i] != EMPTY_KEY && keys[i] != k {
      StopFromIsFirst(keys, k, h, Next(i, |keys|), left - 1);
    }
  }

  lemma StopIsFirst(keys: seq<u32>, hash: u32 -> nat, k: u32)
    requires |keys| > 0
    ensures var s := Stop(keys, hash, k);
            var h := Home(hash, |keys|, k);
            && s <= |keys|
            && (s < |keys| ==> keys[s] == EMPTY_KEY || keys[s] == k)
            && forall t :: 0 <= t < |keys| && (s < |keys| ==> Dist(h, t, |keys|) < Dist(h, s, |keys|)) ==>
                 keys[t] != EMPTY_KEY && keys[t] != k
  {
    StopFromIsFirst(keys, k, Home(hash, |keys|, k), Home(hash, |keys|, k), |keys|);
  }

  /** Probing decides membership: it ends on the key exactly when the map has it, and it runs through the
      whole table only when the table is full and the key absent. */
  lemma StopDecides<V>(keys: seq<u32>, values: seq<V>, hash: u32 -> nat, m: map<u32, V>, k: u32)
    requires |keys| > 0 && Probeable(keys, hash) && Holds(keys, values, m) && k != EMPTY_KEY
    ensures var s := Stop(keys, hash, k);
            && s <= |keys|
            && (k !in m && s < |keys| ==> keys[s] == EMPTY_KEY)
            && (k in m <==> s < |keys| && keys[s] == k)
            && (k in m ==> m[k] == values[s])
            && (s == |keys| <==> k !in m && |m| == |keys|)
  {
    StopIsFirst(keys, hash, k);
    var s := Stop(keys, hash, k);
    if k in m {
      var i :| 0 <= i < |keys| && keys[i] == k;
      assert s < |keys|;
      assert keys[s] == k;
    }
    OccupancyBound(keys, values, m);
    if s == |keys| {
      assert EMPTY_KEY !in keys;
    }
  }

  /** A map never has more entries than the table has slots, and has as many only when none is empty. */
  lemma OccupancyBound<V>(keys: seq<u32>, values: seq<V>, m: map<u32, V>)
    requires Holds(keys, values, m)
    ensures |m| <= |keys|
    ensures |m| == |keys| <==> EMPTY_KEY !in keys
  {
    var taken: set<nat> := set s: nat | 0 <= s < |keys| && keys[s] != EMPTY_KEY;
    var slots := Range(|keys|);
    SubsetCardinality(taken, slots);
    ImageCardinality(keys, taken, m.Keys);
    if EMPTY_KEY in keys {
      var e :| 0 <= e < |keys| && keys[e] == EMPTY_KEY;
      assert e in slots && e !in taken;
    } else {
      assert taken == slots;
    }
  }

  lemma {:induction false} ImageCardinality(keys: seq<u32>, slots: set<nat>, image: set<u32>)
    requires forall s :: s in slots ==> 0 <= s < |keys| && keys[s] in image
    requires forall s, t :: s in slots && t in slots && keys[s] == keys[t] ==> s == t
    requires forall k :: k in image ==> exists s :: s in slots && keys[s] == k
    ensures |slots| == |image|
    decreases slots
  {
    if slots == {} {
      assert image == {};
    } else {
      var s: int :| s in slots;
      forall k | k in image - {keys[s]}
        ensures exists t :: t in slots - {s} && keys[t] == k
      {
        var t :| t in slots && keys[t] == k;
        assert t in slots - {s};
      }
      ImageCardinality(keys, slots - {s}, image - {keys[s]});
    }
  }

  /** Storing an absent key at the slot where its probe stopped keeps the table well formed. */
  lemma StoreKeepsTable<V>(keys: seq<u32>, values: seq<V>, hash: u32 -> nat, m: map<u32, V>, k: u32, v: V)
    requires |keys| > 0 && Probeable(keys, hash) && Holds(keys, values, m) && k != EMPTY_KEY
    requires Stop(keys, hash, k) < |keys|
    ensures var s := Stop(keys, hash, k);
            && Probeable(keys[s := k], hash)
            && Holds(keys[s := k], values[s := v], m[k := v])
  {
    StopIsFirst(keys, hash, k);
    StopDecides(keys, values, hash, m, k);
    var s := Stop(keys, hash, k);
    var keys' := keys[s := k];
    forall x | x in m[k := v]
      ensures x != EMPTY_KEY && x in keys'
    {
      if x == k {
        assert keys'[s] == k;
      } else {
        var i :| 0 <= i < |keys| && keys[i] == x;
        assert keys'[i] == x;
      }
    }
  }

  // ---- chain repair after an erasure ----

  /** The table in the middle of repair: slot h is the one hole that chains may still cross, and only the
      chains of entries m or more steps beyond the hole, those not revisited yet, do. */
  ghost predicate Repairing(keys: seq<u32>, hash: u32 -> nat, h: nat, m: nat) {
    && h < |keys| && 1 <= m <= |keys| && keys[h] == EMPTY_KEY
    && forall s, t :: 0 <= s < |keys| && 0 <= t < |keys| && keys[s] != EMPTY_KEY && keys[t] == EMPTY_KEY
                      && Dist(Home(hash, |keys|, keys[s]), t, |keys|) < Dist(Home(hash, |keys|, keys[s]), s, |keys|)
         ==> t == h && Dist(h, s, |keys|) >= m
  }

  /** The slot m steps after h. */
  function Ahead(h: nat, m: nat, n: nat): nat
    requires h < n && m <= n
  {
    if h + m < n then h + m else h + m - n
  }

  lemma HoleIsEmpty(keys: seq<u32>, hash: u32 -> nat, h: nat, m: nat)
    requires Repairing(keys, hash, h, m)
    ensures h < |keys| && 1 <= m <= |keys| && keys[h] == EMPTY_KEY
  {
  }

  lemma RepairStarts(keys: seq<u32>, hash: u32 -> nat, i: nat)
    requires i < |keys| && Probeable(keys, hash)
    ensures Repairing(keys[i := EMPTY_KEY], hash, i, 1)
  {
  }

  /** Taking the entry at slot j out and reinserting it puts it back at j or into the hole. In the first
      case the repair has advanced by one entry; in the second, j is the new hole and the entry is closer
      to its home. */
  lemma RepairStep(keys: seq<u32>, hash: u32 -> nat, h: nat, m: nat)
    requires |keys| > 0 && Repairing(keys, hash, h, m) && Unique(keys)
    requires keys[Ahead(h, m, |keys|)] != EMPTY_KEY
    ensures var n := |keys|;
            var j := Ahead(h, m, n);
            var k := keys[j];
            var at := Stop(keys[j := EMPTY_KEY], hash, k);
            && j != h && m < n
            && (at == j || at == h)
            && (at == j ==> Repairing(keys, hash, h, m + 1))
            && (at == h ==> Repairing(keys[j := EMPTY_KEY][h := k], hash, j, 1)
                            && Dist(Home(hash, n, k), h, n) < Dist(Home(hash, n, k), j, n))
  {
    var n := |keys|;
    var j := Ahead(h, m, n);
    var at := StopsAtHoleOrHere(keys, hash, h, m);
    if at == h {
      MovedHole(keys, hash, h, m);
    } else {
      StayedHere(keys, hash, h, m);
    }
  }

  /** The chain of the entry at j is unbroken except possibly at the hole, so its probe ends in the hole if
      the hole comes first and at j otherwise. */
  lemma StopsAtHoleOrHere(keys: seq<u32>, hash: u32 -> nat, h: nat, m: nat) returns (at: nat)
    requires |keys| > 0 && Repairing(keys, hash, h, m) && Unique(keys)
    requires keys[Ahead(h, m, |keys|)] != EMPTY_KEY
    ensures var n, j := |keys|, Ahead(h, m, |keys|);
            var b := Home(hash, n, keys[j]);
            && j != h && m < n
            && at == Stop(keys[j := EMPTY_KEY], hash, keys[j])
            && at == if Dist(b, h, n) < Dist(b, j, n) then h else j
  {
    hide Repairing, Home, Stop;
    HoleIsEmpty(keys, hash, h, m);
    var n, j := |keys|, Ahead(h, m, |keys|);
    var taken := keys[j := EMPTY_KEY];
    StopIsFirst(taken, hash, keys[j]);
    at := Stop(taken, hash, keys[j]);
    assert taken[j] == EMPTY_KEY && taken[h] == EMPTY_KEY;
    assert at < n && taken[at] == EMPTY_KEY;
    if at != j {
      assert keys[at] == EMPTY_KEY;
      CrossesOnlyTheHole(keys, hash, h, m, j, at);
    }
  }

  lemma StayedHere(keys: seq<u32>, hash: u32 -> nat, h: nat, m: nat)
    requires |keys| > 0 && Repairing(keys, hash, h, m) && m < |keys|
    requires var j := Ahead(h, m, |keys|);
             && j != h && keys[j] != EMPTY_KEY
             && Dist(Home(hash, |keys|, keys[j]), h, |keys|) >= Dist(Home(hash, |keys|, keys[j]), j, |keys|)
    ensures Repairing(keys, hash, h, m + 1)
  {
  }

  lemma MovedHole(keys: seq<u32>, hash: u32 -> nat, h: nat, m: nat)
    requires |keys| > 0 && Repairing(keys, hash, h, m)
    requires var j := Ahead(h, m, |keys|);
             && j != h && keys[j] != EMPTY_KEY
             && Dist(Home(hash, |keys|, keys[j]), h, |keys|) < Dist(Home(hash, |keys|, keys[j]), j, |keys|)
    ensures var j := Ahead(h, m, |keys|);
            Repairing(keys[j := EMPTY_KEY][h := keys[j]], hash, j, 1)
  {
    hide Repairing, Home;
    HoleIsEmpty(keys, hash, h, m);
    var n, j := |keys|, Ahead(h, m, |keys|);
    var keys' := keys[j := EMPTY_KEY][h := keys[j]];
    forall s, t | 0 <= s < n && 0 <= t < n && keys'[s] != EMPTY_KEY && keys'[t] == EMPTY_KEY
                  && Dist(Home(hash, n, keys'[s]), t, n) < Dist(Home(hash, n, keys'[s]), s, n)
      ensures t == j && Dist(j, s, n) >= 1
    {
      if t != j {
        CrossesOnlyTheHole(keys, hash, h, m, if s == h then j else s, t);
      }
    }
    RepairingIs(keys', hash, j, 1);
  }

  lemma RepairingIs(keys: seq<u32>, hash: u32 -> nat, h: nat, m: nat)
    requires h < |keys| && 1 <= m <= |keys| && keys[h] == EMPTY_KEY
    requires forall s, t :: 0 <= s < |keys| && 0 <= t < |keys| && keys[s] != EMPTY_KEY && keys[t] == EMPTY_KEY
                            && Dist(Home(hash, |keys|, keys[s]), t, |keys|)
                               < Dist(Home(hash, |keys|, keys[s]), s, |keys|)
               ==> t == h && Dist(h, s, |keys|) >= m
    ensures Repairing(keys, hash, h, m)
  {
  }

  lemma CrossesOnlyTheHole(keys: seq<u32>, hash: u32 -> nat, h: nat, m: nat, s: nat, t: nat)
    requires Repairing(keys, hash, h, m)
    requires s < |keys| && t < |keys| && keys[s] != EMPTY_KEY && keys[t] == EMPTY_KEY
    requires Dist(Home(hash, |keys|, keys[s]), t, |keys|) < Dist(Home(hash, |keys|, keys[s]), s, |keys|)
    ensures t == h && Dist(h, s, |keys|) >= m
  {
  }

  /** When the scan meets an empty slot, no chain crosses the hole any more. */
  lemma RepairEnds(keys: seq<u32>, hash: u32 -> nat, h: nat, m: nat)
    requires |keys| > 0 && Repairing(keys, hash, h, m)
    requires keys[Ahead(h, m, |keys|)] == EMPTY_KEY
    ensures Probeable(keys, hash)
  {
    var n := |keys|;
    var j := Ahead(h, m, n);
    forall s, t | 0 <= s < n && 0 <= t < n && keys[s] != EMPTY_KEY && keys[t] == EMPTY_KEY
      ensures Dist(Home(hash, n, keys[s]), t, n) >= Dist(Home(hash, n, keys[s]), s, n)
    {
      var b := Home(hash, n, keys[s]);
      if Dist(b, t, n) < Dist(b, s, n) {
        assert false;
      }
    }
  }

  // ---- termination of the repair: total distance of the entries from their homes ----

  function Displacement(keys: seq<u32>, hash: u32 -> nat, n: nat, s: nat): nat
    requires s < |keys| == n
  {
    if keys[s] == EMPTY_KEY then 0 else Dist(Home(hash, n, keys[s]), s, n)
  }

  function TotalDisplacement(keys: seq<u32>, hash: u32 -> nat, upTo: nat): nat
    requires upTo <= |keys|
  {
    if upTo == 0 then 0
    else TotalDisplacement(keys, hash, upTo - 1) + Displacement(keys, hash, |keys|, upTo - 1)
  }

  lemma {:induction false} DisplacementUpdate(keys: seq<u32>, hash: u32 -> nat, i: nat, k: u32, upTo: nat)
    requires i < |keys| && upTo <= |keys|
    ensures TotalDisplacement(keys[i := k], hash, upTo)
         == TotalDisplacement(keys, hash, upTo)
            + (if i < upTo then Displacement(keys[i := k], hash, |keys|, i) - Displacement(keys, hash, |keys|, i)
                else 0)
  {
    if upTo > 0 {
      DisplacementUpdate(keys, hash, i, k, upTo - 1);
    }
  }

  lemma MoveLowersDisplacement(keys: seq<u32>, hash: u32 -> nat, h: nat, j: nat)
    requires h < |keys| && j < |keys| && h != j && keys[h] == EMPTY_KEY && keys[j] != EMPTY_KEY
    requires Dist(Home(hash, |keys|, keys[j]), h, |keys|) < Dist(Home(hash, |keys|, keys[j]), j, |keys|)
    ensures TotalDisplacement(keys[j := EMPTY_KEY][h := keys[j]], hash, |keys|) < TotalDisplacement(keys, hash, |keys|)
  {
    var taken := keys[j := EMPTY_KEY];
    DisplacementUpdate(keys, hash, j, EMPTY_KEY, |keys|);
    DisplacementUpdate(taken, hash, h, keys[j], |keys|);
    assert Displacement(taken, hash, |keys|, h) == 0;
    assert Displacement(taken, hash, |keys|, j) == 0;
  }

  /** Removing one entry's slot removes one key of the map. */
  lemma VacateKeepsEntries<V>(keys: seq<u32>, values: seq<V>, m: map<u32, V>, i: nat, nil: V)
    requires i < |keys| && keys[i] != EMPTY_KEY && Holds(keys, values, m)
    ensures Holds(keys[i := EMPTY_KEY], values[i := nil], m - {keys[i]})
  {
    var keys' := keys[i := EMPTY_KEY];
    forall x | x in m - {keys[i]}
      ensures x != EMPTY_KEY && x in keys'
    {
      var s :| 0 <= s < |keys| && keys[s] == x;
      assert keys'[s] == x;
    }
  }

  /** Storing an absent key in an empty slot adds one entry to the map. */
  lemma OccupyKeepsEntries<V>(keys: seq<u32>, values: seq<V>, m: map<u32, V>, i: nat, k: u32, v: V)
    requires i < |keys| && keys[i] == EMPTY_KEY && k != EMPTY_KEY && k !in m && Holds(keys, values, m)
    ensures Holds(keys[i := k], values[i := v], m[k := v])
  {
    var keys' := keys[i := k];
    forall x | x in m[k := v]
      ensures x != EMPTY_KEY && x in keys'
    {
      if x == k {
        assert keys'[i] == k;
      } else {
        var s :| 0 <= s < |keys| && keys[s] == x;
        assert keys'[s] == x;
      }
    }
  }

  /** What one round of the repair does to the table: the entry at j leaves, its probe stops at the hole or
      at j, and it settles there. */
  lemma RoundEffect<V>(keys: seq<u32>, values: seq<V>, entries: map<u32, V>, hash: u32 -> nat, h: nat, m: nat, nil: V)
    returns (h': nat, m': nat)
    requires |keys| > 0 && Repairing(keys, hash, h, m) && Holds(keys, values, entries)
    requires keys[Ahead(h, m, |keys|)] != EMPTY_KEY
    ensures var n, j := |keys|, Ahead(h, m, |keys|);
            var taken := keys[j := EMPTY_KEY];
            var at := Stop(taken, hash, keys[j]);
            && at < n && taken[at] == EMPTY_KEY
            && Holds(taken[at := keys[j]], values[j := nil][at := values[j]], entries)
            && h' < n && 1 <= m' <= n && Next(j, n) == Ahead(h', m', n)
            && Repairing(taken[at := keys[j]], hash, h', m')
            && (TotalDisplacement(taken[at := keys[j]], hash, n) < TotalDisplacement(keys, hash, n)
                || (taken[at := keys[j]] == keys && m' > m))
  {
    hide Repairing, Holds, Unique, TotalDisplacement, Stop, Home;
    HoleIsEmpty(keys, hash, h, m);
    var j := Ahead(h, m, |keys|);
    HeldKeysAreUnique(keys, values, entries);
    HeldEntry(keys, values, entries, j);
    var k, v := keys[j], values[j];
    RepairStep(keys, hash, h, m);
    VacateKeepsEntries(keys, values, entries, j, nil);
    var taken := keys[j := EMPTY_KEY];
    var at := Stop(taken, hash, k);
    OccupyKeepsEntries(taken, values[j := nil], entries - {k}, at, k, v);
    assert (entries - {k})[k := v] == entries;
    if at == h {
      MoveLowersDisplacement(keys, hash, h, j);
      h', m' := j, 1;
    } else {
      assert taken[j := k] == keys;
      h', m' := h, m + 1;
    }
  }

  class FlatHashMap<V> {
    const hash: u32 -> nat
    const nil: V
    const keys: array<u32>
    const values: array<V>
    var size: nat
    ghost var contents: map<u32, V>

    /** Storage shape alone, which also holds in the middle of an erasure. */
    ghost predicate Shaped() {
      keys.Length == values.Length > 0 && keys as object != values as object
    }

    ghost predicate Valid()
      reads this, keys, values
    {
      && Shaped()
      && Probeable(keys[..], hash)
      && Holds(keys[..], values[..], contents)
      && size == |contents|
    }

    constructor (capacity: nat, hash: u32 -> nat, nil: V)
      requires capacity > 0
      ensures Valid() && contents == map[]
      ensures keys.Length == capacity && this.hash == hash && this.nil == nil
      ensures fresh(keys) && fresh(values)
    {
      this.hash := hash;
      this.nil := nil;
      keys := new u32[capacity](_ => EMPTY_KEY);
      values := new V[capacity](_ => nil);
      size := 0;
      contents := map[];
    }

    lemma NoEmptyKey()
      requires Valid()
      ensures EMPTY_KEY !in contents
    {
    }

    /** One probe-and-store pass, whatever state the chains are in: the table changes only at the slot where
        the probe stops, and only the entry count says whether the key was new. */
    method InsertRaw(k: u32, v: V) returns (ok: bool)
      requires Shaped() && k != EMPTY_KEY
      modifies this`size, keys, values
      ensures var s := Stop(old(keys[..]), hash, k);
              && (s >= keys.Length ==>
                    !ok && keys[..] == old(keys[..]) && values[..] == old(values[..]) && size == old(size))
              && (s < keys.Length ==>
                    && ok == (old(keys[..])[s] == EMPTY_KEY)
                    && keys[..] == old(keys[..])[s := k] && values[..] == old(values[..])[s := v]
                    && size == old(size) + if ok then 1 else 0)
    {
      ghost var before := keys[..];
      StopIsFirst(before, hash, k);
      var i := Home(hash, keys.Length, k);
      var probe := 0;
      while probe < keys.Length
        invariant 0 <= probe <= keys.Length && 0 <= i < keys.Length
        invariant keys[..] == before && values[..] == old(values[..]) && size == old(size)
        invariant Stop(before, hash, k) == StopFrom(before, k, i, keys.Length - probe)
      {
        if keys[i] == EMPTY_KEY {
          keys[i] := k;
          values[i] := v;
          size := size + 1;
          return true;
        }
        if keys[i] == k {
          values[i] := v;
          assert keys[..] == before[i := k];
          return false;
        }
        i := Next(i, keys.Length);
        probe := probe + 1;
      }
      return false;
    }

    /** insert: overwrites a present key and reports false; adds an absent one and reports true, unless the
        table is full, when nothing changes. */
    method Insert(k: u32, v: V) returns (ok: bool)
      requires Valid() && k != EMPTY_KEY
      modifies this, keys, values
      ensures Valid()
      ensures ok <==> k !in old(contents) && |old(contents)| < keys.Length
      ensures contents == if k !in old(contents) && |old(contents)| == keys.Length then old(contents)
                          else old(contents)[k := v]
    {
      hide Probeable, Holds, Unique;
      StopDecides(keys[..], values[..], hash, contents, k);
      OccupancyBound(keys[..], values[..], contents);
      ghost var s := Stop(keys[..], hash, k);
      if s < keys.Length {
        StoreKeepsTable(keys[..], values[..], hash, contents, k, v);
      }
      ok := InsertRaw(k, v);
      if s < keys.Length {
        contents := contents[k := v];
      }
    }

    method Find(k: u32) returns (v: V)
      requires Valid() && k != EMPTY_KEY
      ensures v == if k in contents then contents[k] else nil
    {
      StopDecides(keys[..], values[..], hash, contents, k);
      var i := Home(hash, keys.Length, k);
      var probe := 0;
      while probe < keys.Length
        invariant 0 <= probe <= keys.Length && 0 <= i < keys.Length
        invariant Stop(keys[..], hash, k) == StopFrom(keys[..], k, i, keys.Length - probe)
      {
        if keys[i] == EMPTY_KEY {
          return nil;
        }
        if keys[i] == k {
          return values[i];
        }
        i := Next(i, keys.Length);
        probe := probe + 1;
      }
      return nil;
    }

    /** erase: exactly the old map without the key. */
    method Erase(k: u32)
      requires Valid() && k != EMPTY_KEY
      modifies this, keys, values
      ensures Valid()
      ensures contents == old(contents) - {k}
    {
      hide Probeable, Holds, Repairing;
      StopDecides(keys[..], values[..], hash, contents, k);
      var i := Home(hash, keys.Length, k);
      var probe := 0;
      while probe < keys.Length
        invariant 0 <= probe <= keys.Length && 0 <= i < keys.Length
        invariant keys[..] == old(keys[..]) && values[..] == old(values[..])
        invariant size == old(size) && contents == old(contents)
        invariant Stop(keys[..], hash, k) == StopFrom(keys[..], k, i, keys.Length - probe)
      {
        if keys[i] == EMPTY_KEY {
          return;
        }
        if keys[i] == k {
          Vacate(i);
          Repair(i);
          return;
        }
        i := Next(i, keys.Length);
        probe := probe + 1;
      }
    }

    /** Empty slot i, leaving the chains through it broken. */
    method Vacate(i: nat)
      requires Valid() && i < keys.Length && keys[i] != EMPTY_KEY
      modifies this, keys, values
      ensures Repairing(keys[..], hash, i, 1)
      ensures Holds(keys[..], values[..], contents) && size == |contents|
      ensures contents == old(contents) - {old(keys[i])}
    {
      RepairStarts(keys[..], hash, i);
      VacateKeepsEntries(keys[..], values[..], contents, i, nil);
      contents := contents - {keys[i]};
      keys[i] := EMPTY_KEY;
      values[i] := nil;
      size := size - 1;
    }

    /** Remove and reinsert the run of entries after the emptied slot. */
    method Repair(i: nat)
      requires Shaped() && i < keys.Length
      requires Repairing(keys[..], hash, i, 1)
      requires Holds(keys[..], values[..], contents) && size == |contents|
      modifies this`size, keys, values
      ensures Valid()
    {
      hide Probeable, Repairing, Holds;
      var j := Next(i, keys.Length);
      ghost var h: nat, m: nat := i, 1;
      while keys[j] != EMPTY_KEY
        invariant h < keys.Length && 1 <= m <= keys.Length && j == Ahead(h, m, keys.Length)
        invariant Repairing(keys[..], hash, h, m)
        invariant Holds(keys[..], values[..], contents) && size == |contents|
        decreases TotalDisplacement(keys[..], hash, keys.Length), keys.Length - m
      {
        h, m := Reinsert(j, h, m);
        j := Next(j, keys.Length);
      }
      RepairEnds(keys[..], hash, h, m);
    }

    /** One round of the repair loop. */
    method Reinsert(j: nat, ghost h: nat, ghost m: nat) returns (ghost h': nat, ghost m': nat)
      requires Shaped() && h < keys.Length && 1 <= m <= keys.Length && j == Ahead(h, m, keys.Length)
      requires keys[j] != EMPTY_KEY
      requires Repairing(keys[..], hash, h, m)
      requires Holds(keys[..], values[..], contents) && size == |contents|
      modifies this`size, keys, values
      ensures Holds(keys[..], values[..], contents) && size == |contents|
      ensures h' < keys.Length && 1 <= m' <= keys.Length && Next(j, keys.Length) == Ahead(h', m', keys.Length)
      ensures Repairing(keys[..], hash, h', m')
      ensures var d := TotalDisplacement(old(keys[..]), hash, keys.Length);
              var d' := TotalDisplacement(keys[..], hash, keys.Length);
              d' < d || (d' == d && m' > m)
    {
      hide Probeable, Repairing, Holds, Unique, TotalDisplacement, Stop;
      h', m' := RoundEffect(keys[..], values[..], contents, hash, h, m, nil);
      HeldEntry(keys[..], values[..], contents, j);
      var rk, rv := keys[j], values[j];
      keys[j] := EMPTY_KEY;
      values[j] := nil;
      size := size - 1;
      assert keys[..] == old(keys[..])[j := EMPTY_KEY] && values[..] == old(values[..])[j := nil];
      var _ := InsertRaw(rk, rv);
    }

    method Clear()
      requires Valid()
      modifies this, keys, values
      ensures Valid() && contents == map[]
    {
      forall i | 0 <= i < keys.Length {
        keys[i] := EMPTY_KEY;
      }
      forall i | 0 <= i < values.Length {
        values[i] := nil;
      }
      size := 0;
      contents := map[];
    }
  }
}
