/** The plain model of `CreditQueue`: three priority levels of per-endpoint FIFOs, a ring of
    endpoints per level, a weighted rotation over the levels, and two limits. */
module Scheduler {

  const PRIORITY_COUNT: nat := 3

  /** How many successful pops a level may take before the rotation moves on. */
  function Weight(level: nat): (w: nat)
    ensures 1 <= w <= 16
  {
    if level == 0 then 16 else if level == 1 then 4 else 1
  }

  import opened Names
  import opened Options

  // The records below take their collections as type parameters; `Ring`, `Level` and `Sched` are
  // the instances in use. This keeps the verifier from ordering every map entry by size.

  datatype RingOf<K, R> = Ring(keys: K, rank: R)
  datatype LevelOf<R, F> = Level(ring: R, fifos: F, pos: nat)
  datatype SchedOf<L, M> = Sched(
    levels: L,
    it: nat,
    rounds: nat,
    inFlight: int,
    globalLimit: int,
    perIn: M,
    perLimit: M)

  /** The endpoints of a level in the order its iterator visits them, and the index of each. */
  type Ring = RingOf<seq<Name>, map<Name, nat>>

  /** One priority level: its ring, a FIFO per endpoint, and the position of its iterator. */
  type Level<B> = LevelOf<Ring, map<Name, seq<B>>>

  type Sched<B> = SchedOf<seq<Level<B>>, map<Name, int>>

  datatype Grant<B> = Grant(level: nat, endpoint: Name, buffer: B)

  function Size<B>(l: Level<B>): nat {
    |l.ring.keys|
  }

  predicate Placed(ring: Ring, e: Name) {
    e in ring.rank && ring.rank[e] < |ring.keys| && ring.keys[ring.rank[e]] == e
  }

  /** The ring lists the endpoints without repetition; `rank` is its inverse. */
  ghost predicate RingWf(ring: Ring, endpoints: set<Name>) {
    && ring.rank.Keys == endpoints
    && (forall i :: 0 <= i < |ring.keys| ==> ring.keys[i] in endpoints && ring.rank[ring.keys[i]] == i)
    && (forall e {:trigger Placed(ring, e)} :: e in endpoints ==> Placed(ring, e))
  }

  ghost predicate LevelWf<B>(l: Level<B>, endpoints: set<Name>) {
    && RingWf(l.ring, endpoints)
    && l.pos < Size(l)
    && l.fifos.Keys == endpoints
  }

  ghost predicate Wf<B>(s: Sched<B>) {
    && |s.levels| == PRIORITY_COUNT
    && s.it < PRIORITY_COUNT
    && 1 <= s.rounds <= Weight(s.it)
    && s.perLimit.Keys == s.perIn.Keys
    && forall p :: 0 <= p < PRIORITY_COUNT ==> LevelWf(s.levels[p], s.perIn.Keys)
  }

  /** An endpoint with a queued request that its own limit does not hold back. */
  predicate Ready<B>(l: Level<B>, perIn: map<Name, int>, perLimit: map<Name, int>, e: Name) {
    && e in l.fifos && e in perIn && e in perLimit
    && l.fifos[e] != []
    && perIn[e] < perLimit[e]
  }

  predicate Empty<B>(l: Level<B>) {
    forall e :: e in l.fifos ==> l.fifos[e] == []
  }

  /** The ring index `k` steps after the position `pos`, for `k` up to one full turn. */
  function Wrap(i: nat, n: nat): nat
    requires n > 0
  {
    if i < n then i else if i < 2 * n then i - n else 0
  }

  /** The endpoint `k` steps after the ring position. */
  function At<B>(l: Level<B>, k: nat): Name
    requires l.pos < Size(l)
  {
    l.ring.keys[Wrap(l.pos + k, Size(l))]
  }

  /** The first offset at or after `k` whose endpoint is ready; the ring length if there is none. */
  function FirstReady<B>(l: Level<B>, perIn: map<Name, int>, perLimit: map<Name, int>, k: nat): (r: nat)
    requires Size(l) > 0 && l.pos < Size(l)
    requires k <= Size(l)
    ensures k <= r <= Size(l)
    ensures r < Size(l) ==> Ready(l, perIn, perLimit, At(l, r))
    decreases Size(l) - k
  {
    if k == Size(l) then k
    else if Ready(l, perIn, perLimit, At(l, k)) then k
    else FirstReady(l, perIn, perLimit, k + 1)
  }

  /** The level after its endpoint at offset `k` gave up the head of its FIFO. */
  function Taken<B>(l: Level<B>, k: nat): Level<B>
    requires k < Size(l) && l.pos < Size(l)
    requires At(l, k) in l.fifos
    requires l.fifos[At(l, k)] != []
  {
    var e := At(l, k);
    l.(fifos := l.fifos[e := l.fifos[e][1..]], pos := Wrap(l.pos + k + 1, Size(l)))
  }

  function NextLevel(it: nat): (r: nat)
    requires it < PRIORITY_COUNT
    ensures r < PRIORITY_COUNT && r != it
  {
    if it + 1 < PRIORITY_COUNT then it + 1 else 0
  }

  /** The scheduler after the level under the iterator granted at ring offset `k`. */
  function Granted<B>(s: Sched<B>, k: nat): Sched<B>
    requires |s.levels| == PRIORITY_COUNT && s.it < PRIORITY_COUNT && s.rounds >= 1
    requires var l := s.levels[s.it]; k < Size(l) && l.pos < Size(l)
    requires var l := s.levels[s.it]; Ready(l, s.perIn, s.perLimit, At(l, k))
  {
    var l := s.levels[s.it];
    var e := At(l, k);
    var moves := s.rounds == 1;
    var it := if moves then NextLevel(s.it) else s.it;
    s.(levels := s.levels[s.it := Taken(l, k)],
       it := it,
       rounds := if moves then Weight(it) else s.rounds - 1,
       inFlight := s.inFlight + 1,
       perIn := s.perIn[e := s.perIn[e] + 1])
  }

  /** The rotation moved past a level that had nothing to grant. */
  function Skipped<B>(s: Sched<B>): Sched<B>
    requires s.it < PRIORITY_COUNT
  {
    s.(it := NextLevel(s.it), rounds := Weight(NextLevel(s.it)))
  }

  /** Try `n` more levels, starting with the one under the iterator. */
  function PopFrom<B>(s: Sched<B>, n: nat): (Sched<B>, Option<Grant<B>>)
    requires Wf(s)
    decreases n
  {
    if n == 0 then (s, None)
    else
      var l := s.levels[s.it];
      var k := FirstReady(l, s.perIn, s.perLimit, 0);
      if k < Size(l) then
        var e := At(l, k);
        (Granted(s, k), Some(Grant(s.it, e, l.fifos[e][0])))
      else
        PopFrom(Skipped(s), n - 1)
  }

  predicate NothingQueued<B>(s: Sched<B>) {
    forall p :: 0 <= p < |s.levels| ==> Empty(s.levels[p])
  }

  /** One call of `CreditQueue::pop`. */
  function Pop<B>(s: Sched<B>): (Sched<B>, Option<Grant<B>>)
    requires Wf(s)
  {
    if NothingQueued(s) || s.inFlight >= s.globalLimit then (s, None)
    else PopFrom(s, PRIORITY_COUNT)
  }

  /** One call of `CreditQueue::push`. */
  function Push<B>(s: Sched<B>, b: B, e: Name, p: nat): Sched<B>
    requires p < |s.levels| && e in s.levels[p].fifos
  {
    var l := s.levels[p];
    s.(levels := s.levels[p := l.(fifos := l.fifos[e := l.fifos[e] + [b]])])
  }

  /** `increment_in_flight` (`d == 1`) and `decrement_in_flight` (`d == -1`). */
  function AddInFlight<B>(s: Sched<B>, e: Name, d: int): Sched<B>
    requires e in s.perIn
  {
    s.(inFlight := s.inFlight + d, perIn := s.perIn[e := s.perIn[e] + d])
  }

  function SetEndpointLimit<B>(s: Sched<B>, e: Name, limit: int): Sched<B>
  {
    s.(perLimit := s.perLimit[e := limit])
  }

  function SetGlobalLimit<B>(s: Sched<B>, limit: int): Sched<B>
  {
    s.(globalLimit := limit)
  }

  /** A queued request that both limits let through. */
  ghost predicate Grantable<B>(s: Sched<B>, p: nat, e: Name) {
    && p < |s.levels|
    && Ready(s.levels[p], s.perIn, s.perLimit, e)
    && s.inFlight < s.globalLimit
  }
}
