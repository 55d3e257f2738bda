/** What every pop of the weighted round-robin does, and that it misses nothing. */
module SchedulerProofs {
  import opened Names
  import opened Options
  import opened Scheduler

  // ----- the ring -----

  /** How many ring steps the position is away from `e`. */
  function Offset<B>(l: Level<B>, e: Name): nat
    requires Placed(l.ring, e) && l.pos < Size(l)
  {
    if l.ring.rank[e] >= l.pos then l.ring.rank[e] - l.pos else l.ring.rank[e] - l.pos + Size(l)
  }

  lemma OffsetIsRight<B>(l: Level<B>, endpoints: set<Name>, e: Name)
    requires LevelWf(l, endpoints) && e in endpoints
    ensures Placed(l.ring, e)
    ensures Offset(l, e) < Size(l) && At(l, Offset(l, e)) == e
    ensures forall j :: 0 <= j < Size(l) && At(l, j) == e ==> j == Offset(l, e)
  {
    assert Placed(l.ring, e);
    assert Wrap(l.pos + Offset(l, e), Size(l)) == l.ring.rank[e];
  }

  /** The scan passes over endpoints that are not ready only. */
  lemma {:induction false} ScanSkipsUnready<B>(
      l: Level<B>, perIn: map<Name, int>, perLimit: map<Name, int>, k: nat, j: nat)
    requires l.pos < Size(l) && k <= Size(l) && k <= j < FirstReady(l, perIn, perLimit, k)
    ensures !Ready(l, perIn, perLimit, At(l, j))
    decreases Size(l) - k
  {
    if k < j {
      ScanSkipsUnready(l, perIn, perLimit, k + 1, j);
    }
  }

  /** The scan fails exactly when no endpoint of the level is ready. */
  lemma {:induction false} ScanFindsReady<B>(s: Sched<B>, p: nat, e: Name)
    requires Wf(s) && p < PRIORITY_COUNT
    requires Ready(s.levels[p], s.perIn, s.perLimit, e)
    ensures FirstReady(s.levels[p], s.perIn, s.perLimit, 0) < Size(s.levels[p])
  {
    var l := s.levels[p];
    assert LevelWf(l, s.perIn.Keys);
    OffsetIsRight(l, s.perIn.Keys, e);
    if FirstReady(l, s.perIn, s.perLimit, 0) == Size(l) {
      ScanSkipsUnready(l, s.perIn, s.perLimit, 0, Offset(l, e));
    }
  }

  // ----- one pop -----

  /** `t` is `s` after the head request of (`g.level`, `g.endpoint`) was granted; nothing else
      that a client can observe has moved. */
  ghost predicate GrantedHead<B>(s: Sched<B>, t: Sched<B>, g: Grant<B>)
    requires Wf(s)
  {
    && Grantable(s, g.level, g.endpoint)
    && |t.levels| == PRIORITY_COUNT
    && g.buffer == s.levels[g.level].fifos[g.endpoint][0]
    && t.levels[g.level].fifos
       == s.levels[g.level].fifos[g.endpoint := s.levels[g.level].fifos[g.endpoint][1..]]
    && t.levels[g.level].ring == s.levels[g.level].ring
    && (forall p :: 0 <= p < PRIORITY_COUNT && p != g.level ==> t.levels[p] == s.levels[p])
    && t.inFlight == s.inFlight + 1
    && t.perIn == s.perIn[g.endpoint := s.perIn[g.endpoint] + 1]
    && t.globalLimit == s.globalLimit
    && t.perLimit == s.perLimit
  }

  lemma {:induction false} GrantedIsWf<B>(s: Sched<B>, k: nat)
    requires Wf(s)
    requires k < Size(s.levels[s.it]) && LevelWf(s.levels[s.it], s.perIn.Keys)
    requires Ready(s.levels[s.it], s.perIn, s.perLimit, At(s.levels[s.it], k))
    ensures Wf(Granted(s, k))
  {
    var l := s.levels[s.it];
    var e := At(l, k);
    var t := Granted(s, k);
    assert t.perIn.Keys == s.perIn.Keys;
    assert t.levels[s.it].fifos.Keys == l.fifos.Keys;
  }

  lemma {:induction false} GrantedTakesHead<B>(s: Sched<B>, k: nat)
    requires Wf(s) && s.inFlight < s.globalLimit
    requires k < Size(s.levels[s.it]) && LevelWf(s.levels[s.it], s.perIn.Keys)
    requires Ready(s.levels[s.it], s.perIn, s.perLimit, At(s.levels[s.it], k))
    ensures var l := s.levels[s.it];
            GrantedHead(s, Granted(s, k), Grant(s.it, At(l, k), l.fifos[At(l, k)][0]))
  {
  }

  lemma SkippedIsWf<B>(s: Sched<B>)
    requires Wf(s)
    ensures Wf(Skipped(s))
  {
  }

  /** `t` and `s` differ in the rotation only. */
  ghost predicate SameButRotation<B>(s: Sched<B>, t: Sched<B>) {
    t.(it := s.it, rounds := s.rounds) == s
  }

  ghost predicate PopEffect<B>(s: Sched<B>, t: Sched<B>, r: Option<Grant<B>>)
    requires Wf(s)
  {
    match r
    case Some(g) => GrantedHead(s, t, g)
    case None => SameButRotation(s, t)
  }

  lemma {:induction false} PopFromSound<B>(s: Sched<B>, n: nat)
    requires Wf(s) && s.inFlight < s.globalLimit
    ensures Wf(PopFrom(s, n).0)
    ensures PopEffect(s, PopFrom(s, n).0, PopFrom(s, n).1)
    decreases n
  {
    if n > 0 {
      var l := s.levels[s.it];
      assert LevelWf(l, s.perIn.Keys);
      var k := FirstReady(l, s.perIn, s.perLimit, 0);
      if k < Size(l) {
        GrantedIsWf(s, k);
        GrantedTakesHead(s, k);
      } else {
        SkippedIsWf(s);
        PopFromSound(Skipped(s), n - 1);
        SkipThenPop(s, PopFrom(Skipped(s), n - 1).0, PopFrom(Skipped(s), n - 1).1);
      }
    }
  }

  lemma SkipThenPop<B>(s: Sched<B>, t: Sched<B>, r: Option<Grant<B>>)
    requires Wf(s) && Wf(Skipped(s)) && PopEffect(Skipped(s), t, r)
    ensures PopEffect(s, t, r)
  {
    if r.Some? {
      assert Skipped(s).levels == s.levels;
      assert GrantedHead(Skipped(s), t, r.value);
    }
  }

  /** The whole observable effect of one pop: the head of one grantable FIFO leaves and both
      counters go up by one, or nothing but the rotation moves. */
  lemma PopSound<B>(s: Sched<B>)
    requires Wf(s)
    ensures Wf(Pop(s).0)
    ensures PopEffect(s, Pop(s).0, Pop(s).1)
  {
    if !(NothingQueued(s) || s.inFlight >= s.globalLimit) {
      PopFromSound(s, PRIORITY_COUNT);
    }
  }

  ghost predicate NoneReady<B>(s: Sched<B>, p: nat)
    requires |s.levels| == PRIORITY_COUNT && p < PRIORITY_COUNT
  {
    forall e :: !Ready(s.levels[p], s.perIn, s.perLimit, e)
  }

  lemma {:induction false} FailedScan<B>(s: Sched<B>, n: nat) returns (s': Sched<B>, n': nat)
    requires Wf(s) && n >= 1
    requires PopFrom(s, n).1.None?
    ensures NoneReady(s, s.it)
    ensures Wf(s') && n' == n - 1 && PopFrom(s', n').1.None?
    ensures s'.it == NextLevel(s.it) && s'.levels == s.levels
    ensures s'.perIn == s.perIn && s'.perLimit == s.perLimit
  {
    SkippedIsWf(s);
    s', n' := Skipped(s), n - 1;
    forall e
      ensures !Ready(s.levels[s.it], s.perIn, s.perLimit, e)
    {
      if Ready(s.levels[s.it], s.perIn, s.perLimit, e) {
        ScanFindsReady(s, s.it, e);
      }
    }
  }

  /** A pop that fails has scanned all three levels. */
  lemma {:induction false} FailedPopVisitsAll<B>(s: Sched<B>, n: nat)
    requires Wf(s) && n == PRIORITY_COUNT && PopFrom(s, n).1.None?
    ensures forall p :: 0 <= p < PRIORITY_COUNT ==> NoneReady(s, p)
  {
    var s1, n1 := FailedScan(s, n);
    var s2, n2 := FailedScan(s1, n1);
    var s3, n3 := FailedScan(s2, n2);
    assert NoneReady(s, s1.it) && NoneReady(s, s2.it);
  }

  /** A pop returns nothing exactly when no queued request is grantable. */
  lemma PopNoneIffNothingGrantable<B>(s: Sched<B>)
    requires Wf(s)
    ensures Pop(s).1.None? <==> forall p: nat, e: Name :: !Grantable(s, p, e)
  {
    PopSound(s);
    if Pop(s).1.None? {
      forall p: nat, e: Name
        ensures !Grantable(s, p, e)
      {
        if s.inFlight < s.globalLimit && p < PRIORITY_COUNT {
          if !NothingQueued(s) {
            FailedPopVisitsAll(s, PRIORITY_COUNT);
            assert NoneReady(s, p);
          }
        }
      }
    } else {
      assert Grantable(s, Pop(s).1.value.level, Pop(s).1.value.endpoint);
    }
  }
}
