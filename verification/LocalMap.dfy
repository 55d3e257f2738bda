/** `LocalMap`: a fixed set of Name keys, placed without collisions by a seeded hash. */
module LocalMaps {
  import opened Names
  import opened Options
  import opened Scheduler
  import opened Slots

  /** The largest `size_t`, used as the mask of tables that are indexed with a remainder. */
  const SIZE_MAX: nat := 0xFFFF_FFFF_FFFF_FFFF
  const TRIALS: nat := 100000

  datatype Outcome = Built | Duplicate | Exhausted

  predicate HasDuplicate(keys: seq<Name>) {
    exists i, j :: 0 <= i < j < |keys| && keys[i] == keys[j]
  }

  /** Non-empty keys, short enough for their 32-bit length field. */
  predicate Supported(keys: seq<Name>) {
    && 0 < |keys| < 0x4000_0000_0000_0000
    && forall i :: 0 <= i < |keys| ==> 0 < |keys[i].text| < 0x1_0000_0000
  }

  /** The slot of each key, for one seed and one capacity. */
  function Placement(hash: (Name, nat) -> nat, seed: nat, cap: nat): Name -> nat
    requires cap > 0
  {
    (k: Name) => SlotIndex(hash(k, seed), cap)
  }

  /** Whether different keys get different slots. */
  ghost predicate Fits(place: Name -> nat, keys: seq<Name>) {
    forall i, j :: 0 <= i < j < |keys| ==> place(keys[i]) != place(keys[j])
  }

  ghost predicate KeysInPlace(place: Name -> nat, slots: seq<Slot>) {
    forall i {:trigger slots[i]} :: 0 <= i < |slots| && Occupied(slots[i]) ==>
      slots[i].len == |slots[i].key.text| && place(slots[i].key) == i
  }

  ghost predicate Stored(slots: seq<Slot>, k: Name) {
    exists i :: 0 <= i < |slots| && Occupied(slots[i]) && slots[i].key == k
  }

  /** `contents` is the finite map that the occupied slots and their values stand for. */
  ghost predicate Holds<T>(slots: seq<Slot>, values: seq<T>, contents: map<Name, T>) {
    && |values| == |slots|
    && HoldsAt(slots, values, contents)
  }

  ghost predicate HoldsAt<T>(slots: seq<Slot>, values: seq<T>, contents: map<Name, T>)
    requires |values| == |slots|
  {
    && (forall i {:trigger slots[i]} :: 0 <= i < |slots| && Occupied(slots[i]) ==>
          slots[i].key in contents && contents[slots[i].key] == values[i])
    && (forall k {:trigger Stored(slots, k)} :: k in contents ==> Stored(slots, k))
  }

  // ----- building -----

  /** `tmp` holds the first `n` keys at their places and nothing else. */
  ghost predicate KeysPlaced(place: Name -> nat, keys: seq<Name>, n: nat, tmp: seq<Slot>) {
    && n <= |keys|
    && Fits(place, keys[..n])
    && KeysInPlace(place, tmp)
    && (forall i :: 0 <= i < n ==>
          place(keys[i]) < |tmp| && Occupied(tmp[place(keys[i])]) && tmp[place(keys[i])].key == keys[i])
    && (forall i {:trigger tmp[i]} :: 0 <= i < |tmp| && Occupied(tmp[i]) ==> tmp[i].key in keys[..n])
  }

  /** `try_build`: place every key with one seed, or report a collision. */
  method TryBuild(hash: (Name, nat) -> nat, keys: seq<Name>, cap: nat, seed: nat)
    returns (ok: bool, tmp: seq<Slot>)
    requires Supported(keys) && 0 < cap
    ensures ok <==> Fits(Placement(hash, seed, cap), keys)
    ensures ok ==> |tmp| == cap && KeysPlaced(Placement(hash, seed, cap), keys, |keys|, tmp)
  {
    hide BitAnd;
    tmp := seq(cap, _ => EMPTY);
    ghost var place := Placement(hash, seed, cap);
    for n := 0 to |keys|
      invariant |tmp| == cap && KeysPlaced(place, keys, n, tmp)
    {
      var h := hash(keys[n], seed);
      var idx := if BitAnd(cap, cap - 1) == 0 then BitAnd(h, cap - 1) else h % cap;
      assert idx == place(keys[n]);
      if Occupied(tmp[idx]) {
        ghost var j :| 0 <= j < n && keys[j] == tmp[idx].key;
        return false, tmp;
      }
      ghost var before := tmp;
      tmp := tmp[idx := Slot(keys[n], |keys[n].text| % 0x1_0000_0000, h)];
      KeysPlacedStep(place, keys, n, before, tmp);
    }
    assert keys[..|keys|] == keys;
    return true, tmp;
  }

  lemma KeysPlacedStep(place: Name -> nat, keys: seq<Name>, n: nat, before: seq<Slot>, after: seq<Slot>)
    requires Supported(keys) && n < |keys| && KeysPlaced(place, keys, n, before)
    requires place(keys[n]) < |before| && !Occupied(before[place(keys[n])])
    requires |after| == |before|
    requires after[place(keys[n])].key == keys[n] && after[place(keys[n])].len == |keys[n].text|
    requires forall i :: 0 <= i < |before| && i != place(keys[n]) ==> after[i] == before[i]
    ensures KeysPlaced(place, keys, n + 1, after)
  {
    assert keys[..n + 1] == keys[..n] + [keys[n]];
  }

  /** A table together with the seed, size and mask that index it. */
  ghost predicate Table(hash: (Name, nat) -> nat, slots: seq<Slot>, seed: nat, size: nat, mask: nat) {
    && 0 < |slots|
    && IndexedBy(hash, slots, seed, size, mask)
  }

  ghost predicate IndexedBy(hash: (Name, nat) -> nat, slots: seq<Slot>, seed: nat, size: nat, mask: nat)
    requires 0 < |slots|
  {
    && (if BitAnd(|slots|, |slots| - 1) == 0 then mask == |slots| - 1 && mask != SIZE_MAX
        else mask == SIZE_MAX && size == |slots|)
    && KeysInPlace(Placement(hash, seed, |slots|), slots)
  }

  function MaskFor(cap: nat): nat
    requires cap > 0
  {
    if BitAnd(cap, cap - 1) == 0 then cap - 1 else SIZE_MAX
  }

  /** The first of the seeds tried that separates the keys. */
  ghost predicate FirstFit(hash: (Name, nat) -> nat, keys: seq<Name>, cap: nat, seed: nat)
    requires cap > 0
  {
    && seed < TRIALS && Fits(Placement(hash, seed, cap), keys)
    && forall t :: 0 <= t < seed ==> !Fits(Placement(hash, t, cap), keys)
  }

  ghost predicate NoFit(hash: (Name, nat) -> nat, keys: seq<Name>, cap: nat)
    requires cap > 0
  {
    forall t :: 0 <= t < TRIALS ==> !Fits(Placement(hash, t, cap), keys)
  }

  /** Doubled from `cap` on until twice `n` fits. */
  function Doubled(n: nat, cap: nat): (d: nat)
    requires cap > 0
    ensures d >= cap && d >= 2 * n
    decreases 2 * n - cap
  {
    if cap < 2 * n then Doubled(n, 2 * cap) else cap
  }

  /** The constructor's search: 100000 seeds for a minimal table, then 100000 for a power of two
      of at least twice the size. */
  method BuildTable(hash: (Name, nat) -> nat, keys: seq<Name>)
    returns (r: Outcome, slots: seq<Slot>, seed: nat, size: nat, mask: nat)
    requires Supported(keys)
    ensures r == Duplicate <==> HasDuplicate(keys)
    ensures r == Built ==> Table(hash, slots, seed, size, mask)
    ensures r == Built ==> KeysPlaced(Placement(hash, seed, |slots|), keys, |keys|, slots)
    ensures r == Built ==>
      || (|slots| == |keys| && FirstFit(hash, keys, |keys|, seed))
      || (|slots| == Doubled(|keys|, 1) && NoFit(hash, keys, |keys|) && FirstFit(hash, keys, |slots|, seed))
    ensures r == Exhausted ==> NoFit(hash, keys, |keys|) && NoFit(hash, keys, Doubled(|keys|, 1))
  {
    hide BitAnd;
    if HasDuplicate(keys) {
      return Duplicate, [], 0, 0, 0;
    }
    var ok;
    for trial := 0 to TRIALS
      invariant forall t :: 0 <= t < trial ==> !Fits(Placement(hash, t, |keys|), keys)
    {
      ok, slots := TryBuild(hash, keys, |keys|, trial);
      if ok {
        return Built, slots, trial, |keys|, MaskFor(|keys|);
      }
    }
    var cap := DoubleCapacity(|keys|);
    for trial := 0 to TRIALS
      invariant forall t :: 0 <= t < trial ==> !Fits(Placement(hash, t, cap), keys)
    {
      ok, slots := TryBuild(hash, keys, cap, trial);
      if ok {
        return Built, slots, trial, |keys|, MaskFor(cap);
      }
    }
    return Exhausted, [], 0, 0, 0;
  }

  method DoubleCapacity(n: nat) returns (cap: nat)
    requires 0 < n
    ensures cap == Doubled(n, 1) && 2 * n <= cap < 4 * n && BitAnd(cap, cap - 1) == 0
  {
    cap := 1;
    assert cap == Pow2(0);
    while cap < 2 * n
      invariant IsPow2(cap) && 1 <= cap < 4 * n && Doubled(n, cap) == Doubled(n, 1)
    {
      ghost var k: nat :| cap == Pow2(k);
      assert 2 * cap == Pow2(k + 1);
      cap := 2 * cap;
    }
    Pow2Test(cap);
  }

  lemma AllZero<T>(place: Name -> nat, keys: seq<Name>, slots: seq<Slot>, values: seq<T>,
                   contents: map<Name, T>, zero: T)
    requires KeysPlaced(place, keys, |keys|, slots) && |values| == |slots|
    requires forall i :: 0 <= i < |values| ==> values[i] == zero
    requires contents == map k | k in keys :: zero
    ensures Holds(slots, values, contents)
  {
    assert keys[..|keys|] == keys;
    forall k | k in contents
      ensures Stored(slots, k)
    {
      var i :| 0 <= i < |keys| && keys[i] == k;
      assert Occupied(slots[place(keys[i])]);
    }
  }

  lemma KeyAtItsPlace<T>(place: Name -> nat, slots: seq<Slot>, values: seq<T>, contents: map<Name, T>, k: Name)
    requires KeysInPlace(place, slots) && Holds(slots, values, contents)
    ensures k in contents <==> place(k) < |slots| && Occupied(slots[place(k)]) && slots[place(k)].key == k
    ensures k in contents ==> contents[k] == values[place(k)]
  {
    if k in contents {
      assert Stored(slots, k);
    }
  }

  class LocalMap<T> {
    const hash: (Name, nat) -> nat
    const outcome: Outcome
    const slots: seq<Slot>
    const seed: nat
    const size: nat
    const mask: nat
    var values: seq<T>
    ghost var contents: map<Name, T>

    ghost predicate Valid()
      reads this
    {
      && Table(hash, slots, seed, size, mask)
      && Holds(slots, values, contents)
    }

    /** A table for `keys`, every value `zero`. Duplicate keys throw in the program; when no seed
        fits the program goes on with an empty table. */
    constructor (keys: seq<Name>, hash: (Name, nat) -> nat, zero: T)
      requires Supported(keys)
      ensures this.hash == hash
      ensures outcome == Duplicate <==> HasDuplicate(keys)
      ensures outcome == Built ==> Valid() && contents == map k | k in keys :: zero
      ensures outcome == Built ==>
        || (|slots| == |keys| && FirstFit(hash, keys, |keys|, seed))
        || (|slots| == Doubled(|keys|, 1) && NoFit(hash, keys, |keys|) && FirstFit(hash, keys, |slots|, seed))
      ensures outcome == Exhausted ==> NoFit(hash, keys, |keys|) && NoFit(hash, keys, Doubled(|keys|, 1))
    {
      var r, s, d, n, m := BuildTable(hash, keys);
      this.hash, outcome, slots, seed, size, mask := hash, r, s, d, n, m;
      var zeros := seq(|s|, _ => zero);
      values := zeros;
      contents := map k | k in keys :: zero;
      if r == Built {
        AllZero(Placement(hash, d, |s|), keys, s, zeros, map k | k in keys :: zero, zero);
      }
    }

    // ----- lookup -----

    /** The slot a key would be in. */
    function Probe(k: Name): (i: nat)
      requires Valid()
      reads this
      ensures i == Placement(hash, seed, |slots|)(k) < |slots|
    {
      if mask != SIZE_MAX then BitAnd(hash(k, seed), mask) else hash(k, seed) % size
    }

    /** `find_ptr` and `index_of`: finds exactly the keys the table was built from, at their slots. */
    function FindPtr(k: Name): (r: Option<nat>)
      requires Valid()
      reads this
      ensures r.Some? <==> k in contents
      ensures r.Some? ==> r.value < |slots| && Occupied(slots[r.value]) && slots[r.value].key == k
      ensures r.Some? ==> values[r.value] == contents[k]
    {
      KeyAtItsPlace(Placement(hash, seed, |slots|), slots, values, contents, k);
      var s := slots[Probe(k)];
      if s.len == |k.text| && Occupied(s) && s.key == k then Some(Probe(k)) else None
    }

    /** The value of a key the table holds; asking for another key is fatal in the program. */
    function Get(k: Name): (v: T)
      requires Valid() && k in contents
      reads this
      ensures v == contents[k]
    {
      values[FindPtr(k).value]
    }

    method Set(k: Name, v: T)
      requires Valid() && k in contents
      modifies this
      ensures Valid() && contents == old(contents)[k := v]
    {
      var idx := FindPtr(k).value;
      StoreKeepsHolds(Placement(hash, seed, |slots|), slots, values, contents, idx, v);
      values := values[idx := v];
      contents := contents[k := v];
    }

    // ----- the wrapping iterator -----

    /** `skip_empty` from index `i`. */
    method SkipEmpty(i: nat) returns (j: nat)
      requires |slots| > 0
      ensures j == Settle(slots, i)
    {
      var n := |slots|;
      j := if i >= n then 0 else i;
      var start := j;
      ghost var wrapped := false;
      while !Occupied(slots[j])
        invariant j < n && (wrapped ==> j < start)
        invariant !wrapped ==> start <= j && forall m :: start <= m < j ==> !Occupied(slots[m])
        invariant wrapped ==> forall m :: start <= m < n ==> !Occupied(slots[m])
        invariant wrapped ==> forall m :: 0 <= m < j ==> !Occupied(slots[m])
        decreases if wrapped then start - j else n - j + start
      {
        j := j + 1;
        if j >= n {
          j := 0;
          wrapped := true;
        }
        if j == start {
          break;
        }
      }
      SettleFrom(slots, i, j);
    }

    method Next(i: nat) returns (j: nat)
      requires |slots| > 0
      ensures j == Advance(slots, i)
    {
      j := SkipEmpty(i + 1);
    }
  }

  lemma StoreKeepsHolds<T>(place: Name -> nat, slots: seq<Slot>, values: seq<T>, contents: map<Name, T>, i: nat, v: T)
    requires KeysInPlace(place, slots) && Holds(slots, values, contents) && i < |slots| && Occupied(slots[i])
    ensures Holds(slots, values[i := v], contents[slots[i].key := v])
  {
  }

  lemma SettleFrom(slots: seq<Slot>, i: nat, j: nat)
    requires j < |slots|
    requires var start := if i >= |slots| then 0 else i;
             if Occupied(slots[j]) then
               (start <= j && forall m :: start <= m < j ==> !Occupied(slots[m]))
               || (j < start && (forall m :: start <= m < |slots| ==> !Occupied(slots[m]))
                             && (forall m :: 0 <= m < j ==> !Occupied(slots[m])))
             else j == start && forall m :: 0 <= m < |slots| ==> !Occupied(slots[m])
    ensures j == Settle(slots, i)
  {
    var start := if i >= |slots| then 0 else i;
    FirstOccupiedIsFirst(slots, start);
    FirstOccupiedIsFirst(slots, 0);
  }

  // ----- the ring of a table -----

  /** The ring of a table: its keys in iteration order. `order` gives their slots, `ranks` back. */
  ghost predicate IterationRing(ring: Ring, slots: seq<Slot>, order: seq<nat>, ranks: seq<nat>, keys: set<Name>) {
    && Lists(slots, order, ranks)
    && RingWf(ring, keys)
    && |ring.keys| == |order|
    && (forall r :: 0 <= r < |order| ==> ring.keys[r] == slots[order[r]].key)
  }

  lemma TableRing<T>(place: Name -> nat, slots: seq<Slot>, values: seq<T>, contents: map<Name, T>,
                     order: seq<nat>, ranks: seq<nat>) returns (ring: Ring)
    requires KeysInPlace(place, slots) && Holds(slots, values, contents) && Lists(slots, order, ranks)
    ensures IterationRing(ring, slots, order, ranks, contents.Keys) && |ring.keys| == |order|
  {
    forall k | k in contents
      ensures place(k) < |slots| && Listed(order, ranks, place(k)) && slots[place(k)].key == k
    {
      KeyAtItsPlace(place, slots, values, contents, k);
    }
    ring := Ring(seq(|order|, r requires 0 <= r < |order| => slots[order[r]].key),
                 map k | k in contents :: ranks[place(k)]);
    assert forall k :: k in contents ==> Placed(ring, k);
  }

  /** Every table has an iteration ring. */
  lemma RingOfTable<T>(hash: (Name, nat) -> nat, slots: seq<Slot>, seed: nat, size: nat, mask: nat,
                       values: seq<T>, contents: map<Name, T>)
    returns (ring: Ring, order: seq<nat>, ranks: seq<nat>)
    requires Table(hash, slots, seed, size, mask) && Holds(slots, values, contents)
    ensures IterationRing(ring, slots, order, ranks, contents.Keys)
    ensures |order| == |ring.keys|
  {
    order, ranks := Order(slots), Ranks(slots);
    OrderLists(slots);
    ring := TableRing(Placement(hash, seed, |slots|), slots, values, contents, order, ranks);
  }
}
