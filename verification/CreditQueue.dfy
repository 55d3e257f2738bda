/** The two queue classes of the credit server. Each method is tied to the plain scheduler. */
module CreditQueues {
  import opened Names
  import opened Options
  import opened Scheduler
  import opened Slots
  import opened LocalMaps
  import opened Sums

  /** The number of requests in a set of FIFOs. */
  ghost function Queued<B>(fifos: map<Name, seq<B>>): int {
    Sum(map e | e in fifos :: |fifos[e]|)
  }

  lemma QueuedZeroIffEmpty<B>(l: Level<B>)
    ensures Queued(l.fifos) >= 0
    ensures Queued(l.fifos) == 0 <==> Empty(l)
  {
    var sizes := map e | e in l.fifos :: |l.fifos[e]|;
    SumNonNegative(sizes);
    if Empty(l) {
      SumZero(sizes);
    } else {
      var e :| e in l.fifos && l.fifos[e] != [];
      assert e in sizes && 0 < sizes[e] <= Queued(l.fifos);
    }
  }

  lemma QueuedUpdate<B>(fifos: map<Name, seq<B>>, e: Name, q: seq<B>)
    requires e in fifos
    ensures Queued(fifos[e := q]) == Queued(fifos) - |fifos[e]| + |q|
    ensures Queued(fifos) >= |fifos[e]|
  {
    var sizes := map k | k in fifos :: |fifos[k]|;
    SumNonNegative(sizes);
    assert e in sizes;
    SumUpdate(sizes, e, |q|);
    var fifos' := fifos[e := q];
    assert (map k | k in fifos' :: |fifos'[k]|) == sizes[e := |q|];
  }

  /** What one pop of a level does to the level and to the counters. */
  ghost predicate LevelPop<B>(l: Level<B>, counts: map<Name, int>, limits: map<Name, int>, inFlight: int, globalLimit: int,
                              l': Level<B>, counts': map<Name, int>, inFlight': int, r: Option<B>) {
    && l.pos < Size(l)
    && var k := FirstReady(l, counts, limits, 0);
       if inFlight < globalLimit && k < Size(l) then
         && r == Some(l.fifos[At(l, k)][0])
         && l' == Taken(l, k)
         && inFlight' == inFlight + 1
         && counts' == counts[At(l, k) := counts[At(l, k)] + 1]
       else
         r == None && inFlight' == inFlight && l' == l && counts' == counts
  }

  /** A credit queue for a single priority. */
  class InnerCreditQueue<B> {
    const queue: LocalMap<seq<B>>
    var it: nat
    var size: nat
    ghost const ring: Ring
    ghost const order: seq<nat>
    ghost const ranks: seq<nat>
    ghost var pos: nat

    ghost predicate Valid()
      reads this, queue
    {
      && queue.Valid()
      && IterationRing(ring, queue.slots, order, ranks, queue.contents.Keys)
      && pos < |order| == |ring.keys| && order[pos] == it
      && size == Queued(queue.contents)
    }

    ghost function Model(): Level<B>
      reads this, queue
    {
      Level(ring, queue.contents, pos)
    }

    /** An empty queue, the iterator on the first endpoint of the table. */
    constructor (endpoints: seq<Name>, hash: (Name, nat) -> nat)
      requires Supported(endpoints) && !HasDuplicate(endpoints)
      ensures fresh(queue)
      ensures queue.outcome == Built ==> Valid() && size == 0 && queue.contents == map e | e in endpoints :: []
    {
      var q := new LocalMap<seq<B>>(endpoints, hash, []);
      var first := 0;
      ghost var ring', order', ranks' := Ring([], map[]), [], [];
      if q.outcome == Built {
        first := q.SkipEmpty(0);
        ring', order', ranks' := RingOfTable(q.hash, q.slots, q.seed, q.size, q.mask, q.values, q.contents);
        BeginIsFirst(q.slots, order', ranks', q.contents.Keys, ring', endpoints[0]);
        QueuedZeroIffEmpty(Level(ring', q.contents, 0));
      }
      queue, it, size := q, first, 0;
      ring, order, ranks, pos := ring', order', ranks', 0;
    }

    lemma ModelIsWf()
      requires Valid()
      ensures LevelWf(Model(), queue.contents.Keys)
      ensures size >= 0 && (size == 0 <==> Empty(Model()))
    {
      QueuedZeroIffEmpty(Model());
    }

    method Push(b: B, e: Name)
      requires Valid() && e in queue.contents
      modifies this, queue
      ensures Valid() && pos == old(pos) && size == old(size) + 1
      ensures queue.contents == old(queue.contents)[e := old(queue.contents)[e] + [b]]
    {
      hide Queued;
      var q := queue.Get(e) + [b];
      QueuedUpdate(queue.contents, e, q);
      queue.Set(e, q);
      size := size + 1;
      assert queue.contents.Keys == old(queue.contents.Keys);
    }

    /** Walk the ring once from the iterator; stop at the first ready endpoint. */
    method Scan(perIn: LocalMap<int>, perLimit: LocalMap<int>) returns (found: bool, i: nat, ghost k: nat)
      requires Valid() && perIn.Valid() && perLimit.Valid()
      requires perIn.contents.Keys == perLimit.contents.Keys == queue.contents.Keys
      ensures k == FirstReady(Model(), perIn.contents, perLimit.contents, 0)
      ensures found <==> k < Size(Model())
      ensures found ==> i == order[Wrap(pos + k, Size(Model()))]
      ensures found ==> i < |queue.values| && |queue.values[i]| > 0
    {
      hide FirstReady, Ready, At, HoldsAt, IndexedBy, RingWf, Lists;
      ghost var l := Model();
      ghost var n := Size(l);
      EndpointAt(l, queue.slots, order, ranks, queue.values, 0);
      var initEndpoint := queue.slots[it].key;
      i, k := it, 0;
      while true
        invariant k < n && i == order[Wrap(pos + k, n)]
        invariant FirstReady(l, perIn.contents, perLimit.contents, 0) == FirstReady(l, perIn.contents, perLimit.contents, k)
        decreases n - k
      {
        EndpointAt(l, queue.slots, order, ranks, queue.values, k);
        ScanStep(l, perIn.contents, perLimit.contents, k);
        var e := queue.slots[i].key;
        if |queue.values[i]| > 0 && perIn.Get(e) < perLimit.Get(e) {
          return true, i, k;
        }
        NextIsWrap(ring, queue.slots, order, ranks, queue.contents.Keys, pos, k);
        i := queue.Next(i);
        k := k + 1;
        if queue.slots[i].key == initEndpoint {
          return false, i, k;
        }
      }
    }

    /** Grant the head request of the first ready endpoint at or after the iterator, if any. */
    method Pop(inFlight: int, perIn: LocalMap<int>, globalLimit: int, perLimit: LocalMap<int>)
      returns (r: Option<B>, inFlight': int)
      requires Valid() && perIn.Valid() && perLimit.Valid() && perIn != perLimit
      requires perIn as object != queue && perLimit as object != queue
      requires perIn.contents.Keys == perLimit.contents.Keys == queue.contents.Keys
      modifies this, queue, perIn
      ensures Valid() && perIn.Valid() && size == old(size) - (if r.Some? then 1 else 0)
      ensures perIn.contents.Keys == old(perIn.contents.Keys) && queue.contents.Keys == old(queue.contents.Keys)
      ensures LevelPop(old(Model()), old(perIn.contents), perLimit.contents, inFlight, globalLimit,
                       Model(), perIn.contents, inFlight', r)
    {
      hide Queued, FirstReady, HoldsAt, IndexedBy, Lists, RingWf;
      if size == 0 || inFlight >= globalLimit {
        EmptyIsNotReady(Model(), perIn.contents, perLimit.contents);
        return None, inFlight;
      }
      var found, i;
      ghost var k;
      found, i, k := Scan(perIn, perLimit);
      if !found {
        return None, inFlight;
      }
      r := Take(i, k);
      var e := queue.slots[i].key;
      perIn.Set(e, perIn.Get(e) + 1);
      inFlight' := inFlight + 1;
      assert perIn.contents.Keys == old(perIn.contents.Keys);
    }

    /** Remove the head of the FIFO in slot `i` and move the iterator past it. */
    method Take(i: nat, ghost k: nat) returns (r: Option<B>)
      requires Valid() && k < Size(Model()) && i == order[Wrap(pos + k, Size(Model()))]
      requires i < |queue.values| && |queue.values[i]| > 0
      modifies this, queue
      ensures Valid() && size == old(size) - 1 && queue.contents.Keys == old(queue.contents.Keys)
      ensures i < |queue.slots| && queue.slots[i].key == At(old(Model()), k)
      ensures At(old(Model()), k) in old(Model()).fifos && old(Model()).fifos[At(old(Model()), k)] != []
      ensures r == Some(old(Model()).fifos[At(old(Model()), k)][0])
      ensures Model() == Taken(old(Model()), k)
    {
      hide Queued, HoldsAt, IndexedBy, Lists;
      ghost var l := Model();
      EndpointAt(l, queue.slots, order, ranks, queue.values, k);
      NextIsWrap(ring, queue.slots, order, ranks, queue.contents.Keys, pos, k);
      var e, q := queue.slots[i].key, queue.values[i];
      QueuedUpdate(queue.contents, e, q[1..]);
      queue.Set(e, q[1..]);
      it := queue.Next(i);
      pos := Wrap(pos + k + 1, Size(l));
      size := size - 1;
      assert queue.contents.Keys == old(queue.contents.Keys);
      return Some(q[0]);
    }
  }

  lemma EmptyIsNotReady<B>(l: Level<B>, perIn: map<Name, int>, perLimit: map<Name, int>)
    requires l.pos < Size(l)
    ensures Queued(l.fifos) == 0 ==> FirstReady(l, perIn, perLimit, 0) == Size(l)
  {
    QueuedZeroIffEmpty(l);
  }

  lemma ScanStep<B>(l: Level<B>, perIn: map<Name, int>, perLimit: map<Name, int>, k: nat)
    requires l.pos < Size(l) && k < Size(l) && At(l, k) in l.fifos && l.fifos.Keys == perIn.Keys == perLimit.Keys
    ensures FirstReady(l, perIn, perLimit, k)
         == if |l.fifos[At(l, k)]| > 0 && perIn[At(l, k)] < perLimit[At(l, k)] then k else FirstReady(l, perIn, perLimit, k + 1)
    ensures FirstReady(l, perIn, perLimit, Size(l)) == Size(l)
  {
  }

  lemma BeginIsFirst(slots: seq<Slot>, order: seq<nat>, ranks: seq<nat>, keys: set<Name>, ring: Ring, e: Name)
    requires IterationRing(ring, slots, order, ranks, keys) && e in keys
    ensures |slots| > 0 && |order| > 0 && Settle(slots, 0) == order[0]
  {
    assert Placed(ring, e);
    FirstOccupiedIsListed(slots, order, ranks, 0, 0);
  }

  /** The slot under the iterator holds the endpoint at ring offset `k` and its FIFO. */
  lemma EndpointAt<B>(l: Level<B>, slots: seq<Slot>, order: seq<nat>, ranks: seq<nat>, values: seq<seq<B>>, k: nat)
    requires IterationRing(l.ring, slots, order, ranks, l.fifos.Keys) && k < |order| && l.pos < |order|
    requires Holds(slots, values, l.fifos)
    ensures l.pos < Size(l) == |order| && Wrap(l.pos + k, Size(l)) < |order|
    ensures order[Wrap(l.pos, Size(l))] == order[l.pos]
    ensures order[Wrap(l.pos + k, Size(l))] < |slots| == |values|
    ensures slots[order[Wrap(l.pos + k, Size(l))]].key == At(l, k) && At(l, k) in l.fifos
    ensures values[order[Wrap(l.pos + k, Size(l))]] == l.fifos[At(l, k)]
  {
  }

  lemma NextIsWrap(ring: Ring, slots: seq<Slot>, order: seq<nat>, ranks: seq<nat>, keys: set<Name>, pos: nat, k: nat)
    requires IterationRing(ring, slots, order, ranks, keys) && k < |order| && pos < |order|
    ensures |slots| > 0
    ensures order[pos] < |slots| && order[Wrap(pos + k + 1, |order|)] < |slots|
    ensures Advance(slots, order[Wrap(pos + k, |order|)]) == order[Wrap(pos + k + 1, |order|)]
    ensures slots[order[Wrap(pos + k + 1, |order|)]].key == slots[order[pos]].key <==> k + 1 == |order|
  {
    AdvanceIsNextRank(slots, order, ranks, Wrap(pos + k, |order|));
  }

  const INT_MAX: int := 0x7FFF_FFFF

  /** C's conversion of a real number to an integer. */
  function Truncate(x: real): int {
    if x >= 0.0 then x.Floor else -(-x).Floor
  }

  /** `max_limit` with the over-committed part of the other endpoints' limits on top. */
  function OverCommitted(maxLimit: int, sumLimit: int, overCommitment: real): int {
    maxLimit + Truncate((sumLimit - maxLimit) as real * overCommitment)
  }

  class CreditQueue<B> {
    // the three priorities
    const level0: InnerCreditQueue<B>
    const level1: InnerCreditQueue<B>
    const level2: InnerCreditQueue<B>
    const perIn: LocalMap<int>
    const perLimit: LocalMap<int>
    var it: nat
    var rounds: nat
    var size: nat
    var inFlight: int
    var globalLimit: int

    function LevelAt(p: nat): InnerCreditQueue<B> {
      if p == 0 then level0 else if p == 1 then level1 else level2
    }

    /** The objects that make up the queue are all different. */
    ghost predicate Apart() {
      && perIn != perLimit
      && level0 != level1 && level0 != level2 && level1 != level2
      && level0.queue != level1.queue && level0.queue != level2.queue && level1.queue != level2.queue
      && level0.queue as object != perIn && level1.queue as object != perIn && level2.queue as object != perIn
      && level0.queue as object != perLimit && level1.queue as object != perLimit && level2.queue as object != perLimit
    }

    ghost function Model(): Sched<B>
      reads this, perIn, perLimit, level0, level1, level2, level0.queue, level1.queue, level2.queue
    {
      Sched([level0.Model(), level1.Model(), level2.Model()], it, rounds, inFlight, globalLimit,
            perIn.contents, perLimit.contents)
    }

    ghost predicate Valid()
      reads this, perIn, perLimit, level0, level1, level2, level0.queue, level1.queue, level2.queue
    {
      && Apart()
      && perIn.Valid() && perLimit.Valid()
      && level0.Valid() && level1.Valid() && level2.Valid()
      && it < PRIORITY_COUNT && 1 <= rounds <= Weight(it)
      && perIn.contents.Keys == perLimit.contents.Keys
      && level0.queue.contents.Keys == perIn.contents.Keys
      && level1.queue.contents.Keys == perIn.contents.Keys
      && level2.queue.contents.Keys == perIn.contents.Keys
      && size == level0.size + level1.size + level2.size
    }

    /** Whether every table found a seed. */
    predicate Built() {
      && perIn.outcome == LocalMaps.Built && perLimit.outcome == LocalMaps.Built
      && level0.queue.outcome == LocalMaps.Built && level1.queue.outcome == LocalMaps.Built
      && level2.queue.outcome == LocalMaps.Built
    }

    method Push(b: B, e: Name, priority: nat)
      requires Valid() && priority < PRIORITY_COUNT && e in perIn.contents
      modifies this, level0, level1, level2, level0.queue, level1.queue, level2.queue
      ensures Valid() && Model() == Scheduler.Push(old(Model()), b, e, priority)
    {
      hide Queued, InnerCreditQueue.Valid, LocalMap.Valid;
      ghost var m0, m1, m2 := level0.Model(), level1.Model(), level2.Model();
      LevelAt(priority).Push(b, e);
      SetLevel(m0, m1, m2, level0.Model(), level1.Model(), level2.Model(), priority);
      size := size + 1;
    }

    /** An empty queue with nothing in flight. A leaf service starts with an over-committed global
        limit, an intermediate one with none. */
    constructor (endpoints: seq<Name>, hash: (Name, nat) -> nat, cpuCount: int, extraLimit: int,
                 leaf: bool, overCommitment: real)
      requires Supported(endpoints) && !HasDuplicate(endpoints)
      ensures fresh(perIn) && fresh(perLimit) && fresh(level0) && fresh(level1) && fresh(level2)
      ensures fresh(level0.queue) && fresh(level1.queue) && fresh(level2.queue)
      ensures Built() ==> Valid() && size == 0 && it == 0 && rounds == Weight(0) && inFlight == 0
      ensures Built() ==> perIn.contents == map e | e in endpoints :: 0
      ensures Built() ==> perLimit.contents == map e | e in endpoints :: cpuCount * 2 + extraLimit
      ensures Built() ==> forall p :: 0 <= p < PRIORITY_COUNT ==>
        LevelAt(p).queue.contents == map e | e in endpoints :: []
      ensures var limit := cpuCount * 2 + extraLimit;
        globalLimit == if leaf then OverCommitted(limit, limit * |endpoints|, overCommitment) else INT_MAX
    {
      hide InnerCreditQueue.Valid, LocalMap.Valid, HasDuplicate;
      level0 := new InnerCreditQueue<B>(endpoints, hash);
      level1 := new InnerCreditQueue<B>(endpoints, hash);
      level2 := new InnerCreditQueue<B>(endpoints, hash);
      var maxLimit := cpuCount * 2 + extraLimit;
      perIn := new LocalMap<int>(endpoints, hash, 0);
      perLimit := new LocalMap<int>(endpoints, hash, maxLimit);
      it, rounds, size, inFlight := 0, Weight(0), 0, 0;
      globalLimit := if leaf then OverCommitted(maxLimit, maxLimit * |endpoints|, overCommitment) else INT_MAX;
    }

    /** `increment_in_flight` and `decrement_in_flight`. */
    method AddInFlight(e: Name, d: int)
      requires Valid() && e in perIn.contents
      modifies this, perIn
      ensures Valid() && Model() == Scheduler.AddInFlight(old(Model()), e, d)
    {
      hide InnerCreditQueue.Valid, InnerCreditQueue.Model, LocalMap.Valid;
      perIn.Set(e, perIn.Get(e) + d);
      inFlight := inFlight + d;
      assert perIn.contents.Keys == old(perIn.contents.Keys);
    }

    method UpdateEndpointLimit(limit: int, e: Name)
      requires Valid() && e in perLimit.contents
      modifies perLimit
      ensures Valid() && Model() == SetEndpointLimit(old(Model()), e, limit)
    {
      hide InnerCreditQueue.Valid, InnerCreditQueue.Model, LocalMap.Valid;
      perLimit.Set(e, limit);
      assert perLimit.contents.Keys == old(perLimit.contents.Keys);
    }

    method UpdateGlobalLimit(limit: int)
      requires Valid()
      modifies this
      ensures Valid() && Model() == SetGlobalLimit(old(Model()), limit)
    {
      hide InnerCreditQueue.Valid, InnerCreditQueue.Model, LocalMap.Valid;
      globalLimit := limit;
    }

    lemma ModelIsWf()
      requires Valid()
      ensures Wf(Model())
      ensures size == 0 <==> NothingQueued(Model())
      ensures it < PRIORITY_COUNT
    {
      hide InnerCreditQueue.Valid, LocalMap.Valid, Empty;
      level0.ModelIsWf();
      level1.ModelIsWf();
      level2.ModelIsWf();
      var s := Model();
      assert s.levels[0] == level0.Model() && s.levels[1] == level1.Model() && s.levels[2] == level2.Model();
    }

    /** One pop: exactly what the plain scheduler says, rotation included. */
    method Pop() returns (r: Option<B>)
      requires Valid()
      modifies this, perIn, level0, level1, level2, level0.queue, level1.queue, level2.queue
      ensures Valid() && Wf(old(Model()))
      ensures Model() == Scheduler.Pop(old(Model())).0
      ensures r == Buffer(Scheduler.Pop(old(Model())).1)
    {
      hide Valid, PopFrom, Wf, NothingQueued;
      ModelIsWf();
      if size == 0 || inFlight >= globalLimit {
        return None;
      }
      r := Rotate();
    }

    /** The loop of `pop`: at most one turn of each level. */
    method Rotate() returns (r: Option<B>)
      requires Valid() && inFlight < globalLimit
      modifies this, perIn, level0, level1, level2, level0.queue, level1.queue, level2.queue
      ensures Valid() && Wf(old(Model()))
      ensures Model() == PopFrom(old(Model()), PRIORITY_COUNT).0
      ensures r == Buffer(PopFrom(old(Model()), PRIORITY_COUNT).1)
    {
      hide Valid, PopFrom, LevelTurn, Wf, Model, Skipped;
      ModelIsWf();
      ghost var s := Model();
      ghost var n: nat := PRIORITY_COUNT;
      var initIndex := it;
      while true
        invariant Valid() && Wf(Model()) && inFlight < globalLimit && 1 <= n <= PRIORITY_COUNT
        invariant PopFrom(Model(), n) == PopFrom(s, PRIORITY_COUNT)
        invariant it == TurnIndex(initIndex, n)
        decreases n
      {
        ghost var t := Model();
        r := TryLevel();
        TurnIsPopFrom(t, Model(), r, n);
        if r.Some? {
          return r;
        }
        AdvanceLevel();
        n := n - 1;
        ModelIsWf();
        if it == initIndex {
          NoTurnsLeft(Model());
          return None;
        }
      }
    }

    method AdvanceLevel()
      requires Valid()
      modifies this
      ensures Valid() && Model() == Skipped(old(Model()))
      ensures it == (old(it) + 1) % PRIORITY_COUNT && inFlight == old(inFlight) && globalLimit == old(globalLimit)
    {
      hide InnerCreditQueue.Valid, InnerCreditQueue.Model, LocalMap.Valid;
      it := (it + 1) % PRIORITY_COUNT;
      rounds := Weight(it);
    }

    /** Let the level under the iterator grant, and count the round if it does. */
    method TryLevel() returns (r: Option<B>)
      requires Valid() && inFlight < globalLimit
      modifies this, perIn, level0, level1, level2, level0.queue, level1.queue, level2.queue
      ensures Valid() && globalLimit == old(globalLimit)
      ensures r.None? ==> inFlight == old(inFlight) && it == old(it) < PRIORITY_COUNT
      ensures LevelTurn(old(Model()), Model(), r)
    {
      hide Valid, Queued, FirstReady, Taken, At;
      ghost var s := Model();
      r := PopLevel();
      ghost var l := s.levels[s.it];
      if r.Some? {
        CountRound();
        ghost var k := FirstReady(l, s.perIn, s.perLimit, 0);
        assert Ready(l, s.perIn, s.perLimit, At(l, k));
        assert Model() == Granted(s, k);
      } else {
        assert s.levels[s.it := l] == s.levels;
      }
    }

    method PopLevel() returns (r: Option<B>)
      requires Valid() && inFlight < globalLimit
      modifies this, perIn, level0, level1, level2, level0.queue, level1.queue, level2.queue
      ensures Valid() && it == old(it) < PRIORITY_COUNT && rounds == old(rounds) >= 1 && globalLimit == old(globalLimit)
      ensures var s := old(Model());
              && LevelPop(s.levels[it], s.perIn, s.perLimit, s.inFlight, s.globalLimit,
                          LevelAt(it).Model(), perIn.contents, inFlight, r)
              && Model() == s.(levels := s.levels[it := LevelAt(it).Model()], perIn := perIn.contents, inFlight := inFlight)
    {
      hide Queued, LevelPop, LocalMap.Valid, InnerCreditQueue.Valid, Weight;
      ghost var m0, m1, m2 := level0.Model(), level1.Model(), level2.Model();
      var count;
      r, count := LevelAt(it).Pop(inFlight, perIn, globalLimit, perLimit);
      SetLevel(m0, m1, m2, level0.Model(), level1.Model(), level2.Model(), it);
      inFlight, size := count, size - (if r.Some? then 1 else 0);
    }

    method CountRound()
      requires Valid()
      modifies this
      ensures Valid() && it < PRIORITY_COUNT && inFlight == old(inFlight) && globalLimit == old(globalLimit)
      ensures var moves := old(rounds) == 1;
              && it == (if moves then NextLevel(old(it)) else old(it))
              && rounds == (if moves then Weight(it) else old(rounds) - 1)
    {
      hide InnerCreditQueue.Valid, InnerCreditQueue.Model, LocalMap.Valid;
      rounds := rounds - 1;
      if rounds == 0 {
        it := (it + 1) % PRIORITY_COUNT;
        rounds := Weight(it);
      }
    }
  }

  function Buffer<B>(g: Option<Grant<B>>): Option<B> {
    if g.Some? then Some(g.value.buffer) else None
  }

  /** The level under the iterator when `n` turns are left. */
  function TurnIndex(initIndex: nat, n: nat): nat {
    (initIndex + (PRIORITY_COUNT - n)) % PRIORITY_COUNT
  }

  lemma TurnIsPopFrom<B>(s: Sched<B>, t: Sched<B>, r: Option<B>, n: nat)
    requires Wf(s) && n > 0 && LevelTurn(s, t, r)
    ensures if r.Some? then t == PopFrom(s, n).0 && r == Buffer(PopFrom(s, n).1)
            else t == s && PopFrom(s, n) == PopFrom(Skipped(s), n - 1)
  {
  }

  lemma NoTurnsLeft<B>(s: Sched<B>)
    requires Wf(s)
    ensures PopFrom(s, 0) == (s, None)
  {
  }

  /** One turn of the level under the iterator: it grants its first ready endpoint, if any. */
  ghost predicate LevelTurn<B>(s: Sched<B>, t: Sched<B>, r: Option<B>) {
    && |s.levels| == PRIORITY_COUNT && s.it < PRIORITY_COUNT && s.rounds >= 1
    && var l := s.levels[s.it];
       && l.pos < Size(l)
       && var k := FirstReady(l, s.perIn, s.perLimit, 0);
          if k < Size(l) then r == Some(l.fifos[At(l, k)][0]) && t == Granted(s, k)
          else r == None && t == s
  }

  lemma SetLevel<L>(a: L, b: L, c: L, a': L, b': L, c': L, p: nat)
    requires p < PRIORITY_COUNT
    requires (p != 0 ==> a' == a) && (p != 1 ==> b' == b) && (p != 2 ==> c' == c)
    ensures [a', b', c'] == [a, b, c][p := [a', b', c'][p]]
  {
  }
}
