/** Threads at work on one credit queue: every load and store of a shared field is a step of its own, and the
    steps of the threads interleave freely. */
module Locking {

  import opened Bytes
  import opened Options
  import opened Names
  import opened Sums

  type Thread = nat

  /** Where a thread stands. `Load` and `Store` are the halves of `counter += d`; `grant` says that the change
      belongs to a pop, which goes on to take a buffer. */
  datatype Pc =
    | Idle
    | PushWait | PushHeld | PushAdded | PushCount
    | PopWait | PopHeld | PopTake | PopTaken
    | CountWait(e: Name, d: int)
    | LoadOne(e: Name, d: int, grant: bool)
    | StoreOne(e: Name, d: int, grant: bool, v: int)
    | LoadAll(d: int, grant: bool)
    | StoreAll(d: int, grant: bool, v: int)
    | Leave

  datatype MachineOf<P, T> = Machine(holder: Option<Thread>, size: int, queued: int, inFlight: int,
                                     globalLimit: int, per: P, threads: T)

  type Machine = MachineOf<map<Name, int>, map<Thread, Pc>>

  /** What a thread does next: start an operation, go on, or, once it holds the lock in a pop, grant for an
      endpoint or give up. */
  datatype Act = Push | Pop | Count(e: Name, d: int) | Go | Grant(to: Name) | Refuse

  predicate Holds(pc: Pc) {
    !(pc.Idle? || pc.PushWait? || pc.PushCount? || pc.PopWait? || pc.CountWait?)
  }

  // ----- steps -----

  function Move(m: Machine, t: Thread, pc: Pc): Machine {
    m.(threads := m.threads[t := pc])
  }

  /** Spin until the lock is free, then hold it. */
  function Acquire(m: Machine, t: Thread, pc: Pc): Machine {
    if m.holder.None? then Move(m, t, pc).(holder := Some(t)) else m
  }

  /** The endpoints are fixed, and a thread only names one of them. */
  function CounterOf(m: Machine, e: Name): int {
    if e in m.per then m.per[e] else 0
  }

  predicate Enabled(m: Machine, t: Thread, act: Act) {
    t in m.threads &&
    match m.threads[t]
    case Idle => act == Push || act == Pop || (act.Count? && act.e in m.per && (act.d == 1 || act.d == -1))
    case PopHeld => act == Refuse || (act.Grant? && act.to in m.per && m.queued > 0 && m.inFlight < m.globalLimit)
    case _ => act == Go
  }

  function Step(m: Machine, t: Thread, act: Act): Machine
    requires Enabled(m, t, act)
  {
    match m.threads[t]
    case Idle => Begin(m, t, act)
    case PushWait => Acquire(m, t, PushHeld)
    case PushHeld => Move(m, t, PushAdded).(queued := m.queued + 1)
    case PushAdded => Move(m, t, PushCount).(holder := None)
    case PushCount => Move(m, t, Idle).(size := (m.size + 1) % WORD)
    case PopWait => Acquire(m, t, PopHeld)
    case PopHeld => Move(m, t, if act.Grant? then LoadOne(act.to, 1, true) else Leave)
    case PopTake => Move(m, t, PopTaken).(queued := m.queued - 1)
    case PopTaken => Move(m, t, Leave).(size := (m.size - 1) % WORD)
    case CountWait(e, d) => Acquire(m, t, LoadOne(e, d, false))
    case LoadOne(e, d, g) => Move(m, t, StoreOne(e, d, g, CounterOf(m, e)))
    case StoreOne(e, d, g, v) => Move(m, t, LoadAll(d, g)).(per := m.per[e := v + d])
    case LoadAll(d, g) => Move(m, t, StoreAll(d, g, m.inFlight))
    case StoreAll(d, g, v) => Move(m, t, if g then PopTake else Leave).(inFlight := v + d)
    case Leave => Move(m, t, Idle).(holder := None)
  }

  /** A pop looks at the size before it takes the lock, and leaves at once when it reads zero. */
  function Begin(m: Machine, t: Thread, act: Act): Machine {
    match act
    case Push => Move(m, t, PushWait)
    case Pop => if m.size == 0 then m else Move(m, t, PopWait)
    case Count(e, d) => Move(m, t, CountWait(e, d))
    case _ => m
  }

  // ----- what every interleaving keeps -----

  predicate NamesEndpoint(pc: Pc) {
    pc.CountWait? || pc.LoadOne? || pc.StoreOne?
  }

  /** A thread stands between acquiring and releasing exactly when it holds the lock, it names a known
      endpoint, and what it has loaded is still there. */
  predicate Fits(m: Machine, t: Thread) {
    t in m.threads &&
    var pc := m.threads[t];
    && (Holds(pc) <==> m.holder == Some(t))
    && (NamesEndpoint(pc) ==> pc.e in m.per)
    && (pc.StoreOne? ==> pc.v == m.per[pc.e])
    && (pc.StoreAll? ==> pc.v == m.inFlight)
  }

  ghost predicate AllFit(m: Machine) {
    && (m.holder.Some? ==> m.holder.value in m.threads)
    && forall t :: t in m.threads ==> Fits(m, t)
  }

  /** What the holder has added to an endpoint's counter and not yet to the total. */
  function Owed(pc: Pc): int {
    if pc.LoadAll? || pc.StoreAll? then pc.d else 0
  }

  /** Buffers a thread has put in or taken out without counting them. */
  function Pending(pc: Pc): int {
    if pc.PushAdded? || pc.PushCount? then 1 else if pc.PopTaken? then -1 else 0
  }

  function Owing(threads: map<Thread, Pc>): map<Thread, int> {
    map t | t in threads :: Owed(threads[t])
  }

  function Uncounted(threads: map<Thread, Pc>): map<Thread, int> {
    map t | t in threads :: Pending(threads[t])
  }

  ghost predicate Inv(m: Machine) {
    && AllFit(m)
    && 0 <= m.size < WORD
    && m.inFlight + Sum(Owing(m.threads)) == Sum(m.per)
    && (m.size + Sum(Uncounted(m.threads))) % WORD == m.queued % WORD
  }

  lemma OneMoved(threads: map<Thread, Pc>, t: Thread, pc: Pc)
    requires t in threads
    ensures Sum(Owing(threads[t := pc])) == Sum(Owing(threads)) - Owed(threads[t]) + Owed(pc)
    ensures Sum(Uncounted(threads[t := pc])) == Sum(Uncounted(threads)) - Pending(threads[t]) + Pending(pc)
  {
    hide Sum;
    assert Owing(threads[t := pc]) == Owing(threads)[t := Owed(pc)];
    assert Uncounted(threads[t := pc]) == Uncounted(threads)[t := Pending(pc)];
    SumUpdate(Owing(threads), t, Owed(pc));
    SumUpdate(Uncounted(threads), t, Pending(pc));
  }

  /** Counting late or early does not matter in a word. */
  lemma WordAdds(size: int, d: int, pending: int, queued: int)
    requires (size + pending) % WORD == queued % WORD
    ensures ((size + d) % WORD + (pending - d)) % WORD == queued % WORD
    ensures (size + (pending + d)) % WORD == (queued + d) % WORD
  {
  }

  lemma MoverFits(m: Machine, t: Thread, act: Act)
    requires Fits(m, t) && Enabled(m, t, act)
    ensures Fits(Step(m, t, act), t)
  {
  }

  lemma OthersFit(m: Machine, t: Thread, act: Act, u: Thread)
    requires Fits(m, t) && Fits(m, u) && Enabled(m, t, act) && u != t
    ensures Fits(Step(m, t, act), u)
  {
  }

  lemma StepMovesOne(m: Machine, t: Thread, act: Act)
    requires Fits(m, t) && Enabled(m, t, act)
    ensures var n := Step(m, t, act);
      && t in n.threads && n.threads == m.threads[t := n.threads[t]]
      && (n.holder == m.holder || n.holder == None || n.holder == Some(t))
  {
  }

  lemma StepKeepsFit(m: Machine, t: Thread, act: Act)
    requires AllFit(m) && Fits(m, t) && Enabled(m, t, act)
    ensures AllFit(Step(m, t, act))
  {
    hide Fits, Step;
    StepMovesOne(m, t, act);
    MoverFits(m, t, act);
    forall u | u in m.threads && u != t ensures Fits(Step(m, t, act), u) {
      OthersFit(m, t, act, u);
    }
  }

  lemma StepKeepsCounters(m: Machine, t: Thread, act: Act)
    requires Inv(m) && Fits(m, t) && Enabled(m, t, act)
    ensures var n := Step(m, t, act); n.inFlight + Sum(Owing(n.threads)) == Sum(n.per)
  {
    hide Sum, Uncounted, Owing, AllFit;
    var n := Step(m, t, act);
    var pc := m.threads[t];
    StepMovesOne(m, t, act);
    OneMoved(m.threads, t, n.threads[t]);
    if pc.StoreOne? {
      SumUpdate(m.per, pc.e, pc.v + pc.d);
    }
  }

  lemma StepKeepsSize(m: Machine, t: Thread, act: Act)
    requires Inv(m) && Fits(m, t) && Enabled(m, t, act)
    ensures var n := Step(m, t, act);
      0 <= n.size < WORD && (n.size + Sum(Uncounted(n.threads))) % WORD == n.queued % WORD
  {
    hide Sum, Uncounted, Owing, AllFit, Fits;
    var n := Step(m, t, act);
    StepMovesOne(m, t, act);
    OneMoved(m.threads, t, n.threads[t]);
    WordAdds(m.size, 1, Sum(Uncounted(m.threads)), m.queued);
    WordAdds(m.size, -1, Sum(Uncounted(m.threads)), m.queued);
  }

  lemma ThreadFits(m: Machine, t: Thread, act: Act)
    requires AllFit(m) && Enabled(m, t, act)
    ensures Fits(m, t)
  {
  }

  /** One step of any thread keeps the counters in order. */
  lemma StepKeepsInv(m: Machine, t: Thread, act: Act)
    requires Inv(m) && Enabled(m, t, act)
    ensures Inv(Step(m, t, act))
  {
    ThreadFits(m, t, act);
    hide AllFit, Step, Fits, Enabled, Owing, Uncounted, Sum;
    StepKeepsFit(m, t, act);
    StepKeepsCounters(m, t, act);
    StepKeepsSize(m, t, act);
  }

  // ----- runs -----

  /** An interleaving: which thread moves, and how. */
  type Schedule = seq<(Thread, Act)>

  ghost predicate Possible(m: Machine, run: Schedule)
    decreases |run|
  {
    run != [] ==>
      && Enabled(m, run[0].0, run[0].1)
      && Possible(Step(m, run[0].0, run[0].1), run[1..])
  }

  ghost function After(m: Machine, run: Schedule): Machine
    requires Possible(m, run)
    decreases |run|
  {
    if run == [] then m else After(Step(m, run[0].0, run[0].1), run[1..])
  }

  lemma {:induction false} RunKeepsInv(m: Machine, run: Schedule)
    requires Inv(m) && Possible(m, run)
    ensures Inv(After(m, run))
    decreases |run|
  {
    hide Inv, Step;
    if run != [] {
      StepKeepsInv(m, run[0].0, run[0].1);
      RunKeepsInv(Step(m, run[0].0, run[0].1), run[1..]);
    }
  }

  ghost predicate Start(m: Machine) {
    && m.holder == None && m.size == 0 && m.queued == 0 && m.inFlight == 0
    && (forall e :: e in m.per ==> m.per[e] == 0)
    && (forall t :: t in m.threads ==> m.threads[t] == Idle)
  }

  lemma StartIsInv(m: Machine)
    requires Start(m)
    ensures Inv(m)
  {
    SumZero(Owing(m.threads));
    SumZero(Uncounted(m.threads));
    SumZero(m.per);
  }

  /** Between critical sections the total equals the sum over the endpoints. */
  lemma FreeLockMeansConsistent(m: Machine, run: Schedule)
    requires Start(m) && Possible(m, run) && After(m, run).holder == None
    ensures After(m, run).inFlight == Sum(After(m, run).per)
  {
    hide Start, Inv, Possible;
    StartIsInv(m);
    RunKeepsInv(m, run);
    FreeLock(After(m, run));
  }

  /** The size counter lacks exactly the pushes that have released the lock and not counted yet, as long as no
      thread stands inside the lock between changing the queue and releasing or counting. */
  lemma SizeLacksPushesIff(m: Machine, run: Schedule)
    requires Start(m) && Possible(m, run)
    ensures var n := After(m, run);
      (n.size + |Counting(n)|) % WORD == n.queued % WORD <==>
        forall t :: t in n.threads ==> n.threads[t] != PushAdded && n.threads[t] != PopTaken
  {
    hide Start, Inv, Possible, Counting;
    StartIsInv(m);
    RunKeepsInv(m, run);
    LacksPushesIff(After(m, run));
  }

  ghost function Counting(m: Machine): set<Thread> {
    set t | t in m.threads && m.threads[t] == PushCount
  }

  lemma FreeLock(m: Machine)
    requires Inv(m) && m.holder == None
    ensures m.inFlight == Sum(m.per)
  {
    hide Sum, Uncounted, Pending;
    forall t | t in m.threads ensures !Holds(m.threads[t]) {
      assert Fits(m, t);
    }
    NobodyOwes(m.threads);
  }

  lemma LacksPushesIff(m: Machine)
    requires Inv(m)
    ensures (m.size + |Counting(m)|) % WORD == m.queued % WORD <==>
      forall t :: t in m.threads ==> m.threads[t] != PushAdded && m.threads[t] != PopTaken
  {
    hide Sum, Uncounted, Owing, Fits;
    if t :| t in m.threads && (m.threads[t] == PushAdded || m.threads[t] == PopTaken) {
      var rest := m.threads[t := Idle];
      OneMoved(m.threads, t, Idle);
      forall u | u in m.threads && u != t ensures rest[u] != PushAdded && rest[u] != PopTaken {
        OneHolder(m, t, u);
      }
      CountOnes(rest, Counting(m));
      OffByOne(m.size, |Counting(m)|, Pending(m.threads[t]), m.queued);
    } else {
      CountOnes(m.threads, Counting(m));
    }
  }

  lemma OneHolder(m: Machine, t: Thread, u: Thread)
    requires AllFit(m) && t in m.threads && u in m.threads && t != u && Holds(m.threads[t])
    ensures !Holds(m.threads[u])
  {
    assert Fits(m, t) && Fits(m, u);
  }

  lemma OffByOne(size: int, n: int, d: int, queued: int)
    requires (size + (n + d)) % WORD == queued % WORD && (d == 1 || d == -1)
    ensures (size + n) % WORD != queued % WORD
  {
  }

  lemma NobodyOwes(threads: map<Thread, Pc>)
    requires forall t :: t in threads ==> !Holds(threads[t])
    ensures Sum(Owing(threads)) == 0
  {
    SumZero(Owing(threads));
  }

  /** Ones at some keys and zeros at the others add up to the number of ones. */
  lemma {:induction false} CountOnes(threads: map<Thread, Pc>, ones: set<Thread>)
    requires ones == set t | t in threads && threads[t] == PushCount
    requires forall t :: t in threads ==> threads[t] != PushAdded && threads[t] != PopTaken
    ensures Sum(Uncounted(threads)) == |ones|
    decreases |ones|
  {
    hide Sum;
    if ones == {} {
      forall t | t in threads ensures Pending(threads[t]) == 0 {
        assert t !in ones;
      }
      SumZero(Uncounted(threads));
    } else {
      var t :| t in ones;
      OneMoved(threads, t, Idle);
      CountOnes(threads[t := Idle], ones - {t});
    }
  }

  /** With no push or pop between its change and its count, the size is exact. */
  lemma SizeIsExact(m: Machine, run: Schedule)
    requires Start(m) && Possible(m, run)
    requires forall t :: t in After(m, run).threads ==> Pending(After(m, run).threads[t]) == 0
    ensures After(m, run).size == After(m, run).queued % WORD
  {
    hide Start, Possible, Pending;
    StartIsInv(m);
    RunKeepsInv(m, run);
    hide AllFit, Owing;
    SumZero(Uncounted(After(m, run).threads));
  }

  /** A pop that reads size zero over a non-empty queue overtook a push: some thread has put its buffer in and
      not counted it yet. (A queue holds fewer buffers than a word counts.) */
  lemma ZeroSizeMeansPushUnderWay(m: Machine, run: Schedule)
    requires Start(m) && Possible(m, run)
    requires var n := After(m, run); n.size == 0 && 0 < n.queued < WORD - 1
    ensures var n := After(m, run);
      exists t :: t in n.threads && (n.threads[t] == PushAdded || n.threads[t] == PushCount)
  {
    hide Start, Possible;
    StartIsInv(m);
    RunKeepsInv(m, run);
    SomePush(After(m, run));
  }

  lemma SomePush(n: Machine)
    requires Inv(n) && n.size == 0 && 0 < n.queued < WORD - 1
    ensures exists t :: t in n.threads && (n.threads[t] == PushAdded || n.threads[t] == PushCount)
  {
    hide Owing, Sum, AllFit, Uncounted;
    var pushing := exists t :: t in n.threads && (n.threads[t] == PushAdded || n.threads[t] == PushCount);
    if !pushing {
      AtMostOneTaken(n);
    }
  }

  /** Only the holder can be between taking a buffer and counting it. */
  lemma AtMostOneTaken(n: Machine)
    requires AllFit(n)
    requires forall t :: t in n.threads ==> n.threads[t] != PushAdded && n.threads[t] != PushCount
    ensures Sum(Uncounted(n.threads)) == 0 || Sum(Uncounted(n.threads)) == -1
  {
    hide Fits, Sum;
    if h :| h in n.threads && n.threads[h] == PopTaken {
      OneMoved(n.threads, h, Idle);
      forall t | t in n.threads && t != h ensures Pending(n.threads[t]) == 0 {
        OneHolder(n, h, t);
      }
      SumZero(Uncounted(n.threads[h := Idle]));
    } else {
      SumZero(Uncounted(n.threads));
    }
  }
}
