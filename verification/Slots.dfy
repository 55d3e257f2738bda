/** Where `LocalMap` puts a key, and the circular order in which its iterator walks the slots. */
module Slots {
  import opened Names
  import opened Numbers


  // ----- `x & y` on unsigned words -----

  function BitAnd(x: nat, y: nat): nat
    decreases x
  {
    if x == 0 || y == 0 then 0
    else 2 * BitAnd(x / 2, y / 2) + (if x % 2 == 1 && y % 2 == 1 then 1 else 0)
  }

  function Pow2(k: nat): (p: nat)
    ensures p > 0
  {
    if k == 0 then 1 else 2 * Pow2(k - 1)
  }

  ghost predicate IsPow2(n: nat) {
    exists k: nat :: n == Pow2(k)
  }

  lemma {:induction false} HalfMod(h: nat, p: nat)
    requires p > 0
    ensures h % (2 * p) == 2 * ((h / 2) % p) + h % 2
  {
    var q, r := h / 2 / p, (h / 2) % p;
    assert h / 2 == p * q + r;
    assert h == 2 * p * q + (2 * r + h % 2);
    Remainder(h, 2 * p, q, 2 * r + h % 2);
  }

  /** Masking with a power of two less one is the remainder by that power. */
  lemma {:induction false} MaskIsModulo(h: nat, k: nat)
    ensures BitAnd(h, Pow2(k) - 1) == h % Pow2(k)
    decreases k
  {
    if k > 0 {
      var p := Pow2(k - 1);
      MaskIsModulo(h / 2, k - 1);
      assert (2 * p - 1) / 2 == p - 1 && (2 * p - 1) % 2 == 1;
      HalfMod(h, p);
      if p == 1 {
        assert BitAnd(h / 2, 0) == 0;
      }
    }
  }

  lemma {:induction false} AndSelf(x: nat)
    ensures BitAnd(x, x) == x
    decreases x
  {
    if x > 0 {
      AndSelf(x / 2);
    }
  }

  /** The test `(cap & (cap - 1)) == 0` recognises the powers of two. */
  lemma {:induction false} Pow2Test(cap: nat)
    requires cap > 0
    ensures BitAnd(cap, cap - 1) == 0 <==> IsPow2(cap)
    decreases cap
  {
    if cap == 1 {
      assert Pow2(0) == 1;
    } else if cap % 2 == 0 {
      Pow2Test(cap / 2);
      assert (cap - 1) / 2 == cap / 2 - 1;
      if IsPow2(cap / 2) {
        var k: nat :| cap / 2 == Pow2(k);
        assert Pow2(k + 1) == cap;
      }
      if IsPow2(cap) {
        var k: nat :| cap == Pow2(k);
        assert cap / 2 == Pow2(k - 1);
      }
    } else {
      assert (cap - 1) / 2 == cap / 2;
      AndSelf(cap / 2);
      if IsPow2(cap) {
        OddPow2(cap);
      }
    }
  }

  lemma Pow2Parity(k: nat)
    ensures Pow2(k) % 2 == if k == 0 then 1 else 0
  {
  }

  /** The only odd power of two is 1. */
  lemma OddPow2(cap: nat)
    requires cap % 2 == 1 && IsPow2(cap)
    ensures cap == 1
  {
    var k: nat :| cap == Pow2(k);
    Pow2Parity(k);
  }

  /** The slot a hash value selects in a table of `cap` slots, in either layout. */
  function SlotIndex(h: nat, cap: nat): (i: nat)
    requires cap > 0
    ensures i < cap
  {
    SlotIndexIsModulo(h, cap);
    if BitAnd(cap, cap - 1) == 0 then BitAnd(h, cap - 1) else h % cap
  }

  /** The power-of-two layout and the modulo layout agree on what an index is. */
  lemma SlotIndexIsModulo(h: nat, cap: nat)
    requires cap > 0
    ensures (if BitAnd(cap, cap - 1) == 0 then BitAnd(h, cap - 1) else h % cap) == h % cap
  {
    Pow2Test(cap);
    if BitAnd(cap, cap - 1) == 0 {
      var k: nat :| cap == Pow2(k);
      MaskIsModulo(h, k);
    }
  }

  // ----- the slots and their circular order -----

  /** A slot without its value; an empty slot has length 0. */
  datatype Slot = Slot(key: Name, len: nat, fp: nat)

  const EMPTY: Slot := Slot(Name(""), 0, 0)

  predicate Occupied(s: Slot) {
    s.len != 0
  }

  /** The indices of the occupied slots, in increasing order. */
  function Order(slots: seq<Slot>): (order: seq<nat>)
    ensures |order| <= |slots|
  {
    if slots == [] then []
    else
      var n := |slots| - 1;
      Order(slots[..n]) + (if Occupied(slots[n]) then [n] else [])
  }

  /** For every slot, how many occupied slots lie below it. */
  function Ranks(slots: seq<Slot>): (ranks: seq<nat>)
    ensures |ranks| == |slots|
  {
    if slots == [] then []
    else
      var n := |slots| - 1;
      Ranks(slots[..n]) + [|Order(slots[..n])|]
  }

  /** The occupied slot `i` is listed at its rank. */
  predicate Listed(order: seq<nat>, ranks: seq<nat>, i: nat) {
    i < |ranks| && ranks[i] < |order| && order[ranks[i]] == i
  }

  /** `order` lists the occupied slots in increasing order and `ranks` inverts it. */
  ghost predicate Lists(slots: seq<Slot>, order: seq<nat>, ranks: seq<nat>) {
    && |ranks| == |slots|
    && (forall r :: 0 <= r < |order| ==> order[r] < |slots| && Occupied(slots[order[r]]) && ranks[order[r]] == r)
    && (forall i {:trigger Listed(order, ranks, i)} :: 0 <= i < |slots| && Occupied(slots[i]) ==> Listed(order, ranks, i))
    && (forall r, q :: 0 <= r < q < |order| ==> order[r] < order[q])
  }

  lemma ListsMonotone(slots: seq<Slot>, order: seq<nat>, ranks: seq<nat>, r: nat, q: nat)
    requires Lists(slots, order, ranks) && r < |order| && q < |order|
    ensures order[r] < order[q] <==> r < q
  {
    assert q < r ==> order[q] < order[r];
  }

  lemma {:induction false} OrderLists(slots: seq<Slot>)
    ensures Lists(slots, Order(slots), Ranks(slots))
    decreases |slots|
  {
    if slots != [] {
      var n := |slots| - 1;
      OrderLists(slots[..n]);
      ListsExtend(slots, Order(slots[..n]), Ranks(slots[..n]));
    }
  }

  lemma ListsExtend(slots: seq<Slot>, order: seq<nat>, ranks: seq<nat>)
    requires slots != [] && Lists(slots[..|slots| - 1], order, ranks)
    ensures Lists(slots, order + (if Occupied(slots[|slots| - 1]) then [|slots| - 1] else []), ranks + [|order|])
  {
    var n := |slots| - 1;
    var order', ranks' := order + (if Occupied(slots[n]) then [n] else []), ranks + [|order|];
    forall i | 0 <= i < |slots| && Occupied(slots[i])
      ensures Listed(order', ranks', i)
    {
      if i < n {
        assert slots[..n][i] == slots[i];
        assert Listed(order, ranks, i);
      }
    }
  }

  /** The first occupied slot at or after `i`, or the number of slots. */
  function FirstOccupied(slots: seq<Slot>, i: nat): (j: nat)
    requires i <= |slots|
    ensures i <= j <= |slots|
    decreases |slots| - i
  {
    if i == |slots| then i else if Occupied(slots[i]) then i else FirstOccupied(slots, i + 1)
  }

  lemma {:induction false} FirstOccupiedIsFirst(slots: seq<Slot>, i: nat)
    requires i <= |slots|
    ensures var j := FirstOccupied(slots, i);
            && (j < |slots| ==> Occupied(slots[j]))
            && (forall m :: i <= m < j ==> !Occupied(slots[m]))
    decreases |slots| - i
  {
    if i < |slots| && !Occupied(slots[i]) {
      FirstOccupiedIsFirst(slots, i + 1);
    }
  }

  /** Where `skip_empty` leaves an iterator that stands at `i`. */
  function Settle(slots: seq<Slot>, i: nat): (j: nat)
    requires |slots| > 0
    ensures j < |slots|
  {
    var start := if i >= |slots| then 0 else i;
    var j := FirstOccupied(slots, start);
    if j < |slots| then j
    else
      var k := FirstOccupied(slots, 0);
      if k < |slots| then k else start
  }

  /** Where `++` takes an iterator. */
  function Advance(slots: seq<Slot>, i: nat): (j: nat)
    requires |slots| > 0
    ensures j < |slots|
  {
    Settle(slots, i + 1)
  }

  function NextRank(r: nat, n: nat): nat
    requires r < n
  {
    if r + 1 < n then r + 1 else 0
  }

  lemma {:induction false} FirstOccupiedIsListed(slots: seq<Slot>, order: seq<nat>, ranks: seq<nat>, i: nat, r: nat)
    requires Lists(slots, order, ranks)
    requires i <= |slots| && r < |order| && i <= order[r]
    requires r == 0 || order[r - 1] < i
    ensures FirstOccupied(slots, i) == order[r]
  {
    var j := FirstOccupied(slots, i);
    FirstOccupiedIsFirst(slots, i);
    assert j <= order[r];
    assert Listed(order, ranks, j);
    ListsMonotone(slots, order, ranks, ranks[j], r);
    if r > 0 {
      ListsMonotone(slots, order, ranks, r - 1, ranks[j]);
    }
  }

  lemma NoneAfterLast(slots: seq<Slot>, order: seq<nat>, ranks: seq<nat>)
    requires Lists(slots, order, ranks) && order != []
    ensures FirstOccupied(slots, order[|order| - 1] + 1) == |slots|
  {
    LastIsInside(slots, order, ranks);
    hide Lists, Occupied;
    var i := order[|order| - 1] + 1;
    FirstOccupiedIsFirst(slots, i);
    if FirstOccupied(slots, i) < |slots| {
      OccupiedUpToLast(slots, order, ranks, FirstOccupied(slots, i));
    }
  }

  lemma LastIsInside(slots: seq<Slot>, order: seq<nat>, ranks: seq<nat>)
    requires Lists(slots, order, ranks) && order != []
    ensures order[|order| - 1] < |slots|
  {
  }

  lemma OccupiedUpToLast(slots: seq<Slot>, order: seq<nat>, ranks: seq<nat>, j: nat)
    requires Lists(slots, order, ranks) && j < |slots| && Occupied(slots[j])
    ensures order != [] && j <= order[|order| - 1]
  {
    assert Listed(order, ranks, j);
  }

  /** One iterator step goes from the slot of rank `r` to the slot of the next rank, wrapping. */
  lemma {:induction false} AdvanceIsNextRank(slots: seq<Slot>, order: seq<nat>, ranks: seq<nat>, r: nat)
    requires Lists(slots, order, ranks) && r < |order|
    ensures |slots| > 0 && Advance(slots, order[r]) == order[NextRank(r, |order|)]
  {
    if r + 1 < |order| {
      FirstOccupiedIsListed(slots, order, ranks, order[r] + 1, r + 1);
    } else {
      FirstOccupiedIsListed(slots, order, ranks, 0, 0);
      NoneAfterLast(slots, order, ranks);
    }
  }

  /** `k` iterator steps. */
  function Steps(slots: seq<Slot>, i: nat, k: nat): (j: nat)
    requires |slots| > 0 && i < |slots|
    ensures j < |slots|
  {
    if k == 0 then i else Advance(slots, Steps(slots, i, k - 1))
  }

  /** The rank `k` steps after rank `r`, for at most one full turn. */
  function RankAfter(r: nat, k: nat, n: nat): (q: nat)
    requires r < n && k <= n
    ensures q < n
  {
    if r + k < n then r + k else r + k - n
  }

  lemma {:induction false} StepsFollowRanks(slots: seq<Slot>, order: seq<nat>, ranks: seq<nat>, r: nat, k: nat)
    requires Lists(slots, order, ranks) && r < |order| && k <= |order|
    ensures Steps(slots, order[r], k) == order[RankAfter(r, k, |order|)]
    decreases k
  {
    if k > 0 {
      StepsFollowRanks(slots, order, ranks, r, k - 1);
      AdvanceIsNextRank(slots, order, ranks, RankAfter(r, k - 1, |order|));
    }
  }

  /** A full turn: from any occupied slot, as many steps as there are occupied slots visit each of
      them exactly once and end where they began. */
  lemma FullTurn(slots: seq<Slot>, i: nat, j: nat)
    requires i < |slots| && Occupied(slots[i]) && j < |slots| && Occupied(slots[j])
    ensures Steps(slots, i, |Order(slots)|) == i
    ensures exists k :: 0 <= k < |Order(slots)| && Steps(slots, i, k) == j
    ensures forall k, m :: 0 <= k < m < |Order(slots)| ==> Steps(slots, i, k) != Steps(slots, i, m)
  {
    OrderLists(slots);
    FullTurnOf(slots, Order(slots), Ranks(slots), i, j);
  }

  lemma FullTurnOf(slots: seq<Slot>, order: seq<nat>, ranks: seq<nat>, i: nat, j: nat)
    requires Lists(slots, order, ranks)
    requires i < |slots| && Occupied(slots[i]) && j < |slots| && Occupied(slots[j])
    ensures Steps(slots, i, |order|) == i
    ensures exists k :: 0 <= k < |order| && Steps(slots, i, k) == j
    ensures forall k, m :: 0 <= k < m < |order| ==> Steps(slots, i, k) != Steps(slots, i, m)
  {
    assert Listed(order, ranks, i);
    StepsFollowRanks(slots, order, ranks, ranks[i], |order|);
    var k := StepsReach(slots, order, ranks, i, j);
    forall k, m | 0 <= k < m < |order|
      ensures Steps(slots, i, k) != Steps(slots, i, m)
    {
      StepsDiffer(slots, order, ranks, i, k, m);
    }
  }

  lemma StepsReach(slots: seq<Slot>, order: seq<nat>, ranks: seq<nat>, i: nat, j: nat) returns (k: nat)
    requires Lists(slots, order, ranks)
    requires i < |slots| && Occupied(slots[i]) && j < |slots| && Occupied(slots[j])
    ensures k < |order| && Steps(slots, i, k) == j
  {
    assert Listed(order, ranks, i) && Listed(order, ranks, j);
    var r, q := ranks[i], ranks[j];
    k := if q >= r then q - r else q - r + |order|;
    StepsFollowRanks(slots, order, ranks, r, k);
  }

  lemma StepsDiffer(slots: seq<Slot>, order: seq<nat>, ranks: seq<nat>, i: nat, k: nat, m: nat)
    requires Lists(slots, order, ranks)
    requires i < |slots| && Occupied(slots[i]) && k < m < |order|
    ensures Steps(slots, i, k) != Steps(slots, i, m)
  {
    assert Listed(order, ranks, i);
    var n, r := |order|, ranks[i];
    StepsFollowRanks(slots, order, ranks, r, k);
    StepsFollowRanks(slots, order, ranks, r, m);
    ListsMonotone(slots, order, ranks, RankAfter(r, k, n), RankAfter(r, m, n));
    ListsMonotone(slots, order, ranks, RankAfter(r, m, n), RankAfter(r, k, n));
  }
}
