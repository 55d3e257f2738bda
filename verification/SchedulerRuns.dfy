/** Whole runs of the scheduler: no starvation, FIFO order, limits never exceeded. */
module SchedulerRuns {
  import opened Names
  import opened Options
  import opened Scheduler
  import opened SchedulerProofs

  datatype Op<B> =
    | PushOp(buffer: B, endpoint: Name, level: nat)
    | PopOp
    | IncrementOp(endpoint: Name)
    | DecrementOp(endpoint: Name)
    | EndpointLimitOp(endpoint: Name, limit: int)
    | GlobalLimitOp(limit: int)

  /** What the callers of `CreditQueue` must respect: known endpoints and priorities 0..2. */
  predicate Allowed<B>(endpoints: set<Name>, op: Op<B>) {
    match op
    case PushOp(_, e, p) => e in endpoints && p < PRIORITY_COUNT
    case IncrementOp(e) => e in endpoints
    case DecrementOp(e) => e in endpoints
    case EndpointLimitOp(e, _) => e in endpoints
    case _ => true
  }

  predicate AllAllowed<B>(endpoints: set<Name>, ops: seq<Op<B>>) {
    forall i :: 0 <= i < |ops| ==> Allowed(endpoints, ops[i])
  }

  function Apply<B>(s: Sched<B>, op: Op<B>): (Sched<B>, Option<Grant<B>>)
    requires Wf(s) && Allowed(s.perIn.Keys, op)
  {
    match op
    case PushOp(b, e, p) => (Push(s, b, e, p), None)
    case PopOp => Pop(s)
    case IncrementOp(e) => (AddInFlight(s, e, 1), None)
    case DecrementOp(e) => (AddInFlight(s, e, -1), None)
    case EndpointLimitOp(e, limit) => (SetEndpointLimit(s, e, limit), None)
    case GlobalLimitOp(limit) => (SetGlobalLimit(s, limit), None)
  }

  lemma ApplyIsWf<B>(s: Sched<B>, op: Op<B>)
    requires Wf(s) && Allowed(s.perIn.Keys, op)
    ensures Wf(Apply(s, op).0)
    ensures Apply(s, op).0.perIn.Keys == s.perIn.Keys
    ensures forall p :: 0 <= p < PRIORITY_COUNT ==> Apply(s, op).0.levels[p].ring == s.levels[p].ring
  {
    var t := Apply(s, op).0;
    match op
    case PopOp => PopSound(s);
    case PushOp(b, e, p) => assert t.levels[p].fifos.Keys == s.levels[p].fifos.Keys;
    case IncrementOp(e) => assert t.perIn.Keys == s.perIn.Keys;
    case DecrementOp(e) => assert t.perIn.Keys == s.perIn.Keys;
    case EndpointLimitOp(e, _) => assert t.perLimit.Keys == s.perLimit.Keys;
    case GlobalLimitOp(_) =>
  }

  // ----- the potential that bounds waiting -----

  /** How many successful pops the rotation may spend before it is back at level `p`. */
  function TurnsUntil<B>(s: Sched<B>, p: nat): (u: nat)
    requires Wf(s) && p < PRIORITY_COUNT
    ensures u <= 20
  {
    if s.it == p then 0
    else if NextLevel(s.it) == p then s.rounds
    else s.rounds + Weight(NextLevel(s.it))
  }

  ghost function Potential<B>(s: Sched<B>, p: nat, e: Name): nat
    requires Wf(s) && p < PRIORITY_COUNT && e in s.perIn
  {
    OffsetIsRight(s.levels[p], s.perIn.Keys, e);
    21 * Offset(s.levels[p], e) + TurnsUntil(s, p)
  }

  lemma PotentialBound<B>(s: Sched<B>, p: nat, e: Name)
    requires Wf(s) && p < PRIORITY_COUNT && e in s.perIn
    ensures Potential(s, p, e) < 21 * Size(s.levels[p])
  {
    OffsetIsRight(s.levels[p], s.perIn.Keys, e);
  }

  /** A grant at another endpoint of the same level brings the ring strictly closer. */
  lemma {:induction false} GrantElsewhereInLevel<B>(s: Sched<B>, k: nat, p: nat, e: Name)
    requires Wf(s) && p == s.it && e in s.perIn
    requires k < Size(s.levels[p]) && Ready(s.levels[p], s.perIn, s.perLimit, At(s.levels[p], k))
    requires Placed(s.levels[p].ring, e) && k < Offset(s.levels[p], e)
    requires Wf(Granted(s, k))
    ensures Potential(Granted(s, k), p, e) < Potential(s, p, e)
  {
    assert Offset(Granted(s, k).levels[p], e) == Offset(s.levels[p], e) - k - 1;
  }

  lemma {:induction false} GrantAtOtherLevel<B>(s: Sched<B>, k: nat, p: nat, e: Name)
    requires Wf(s) && p != s.it && p < PRIORITY_COUNT && e in s.perIn
    requires k < Size(s.levels[s.it]) && Ready(s.levels[s.it], s.perIn, s.perLimit, At(s.levels[s.it], k))
    requires Wf(Granted(s, k))
    ensures Potential(Granted(s, k), p, e) < Potential(s, p, e)
  {
    assert Granted(s, k).levels[p] == s.levels[p];
  }

  lemma SkipKeepsPotential<B>(s: Sched<B>, p: nat, e: Name)
    requires Wf(s) && p != s.it && p < PRIORITY_COUNT && e in s.perIn
    ensures Wf(Skipped(s)) && Potential(Skipped(s), p, e) <= Potential(s, p, e)
  {
  }

  /** A grant at the first ready offset that is not (`p`, `e`). */
  lemma {:induction false} GrantProgress<B>(s: Sched<B>, k: nat, p: nat, e: Name)
    requires Wf(s) && p < PRIORITY_COUNT && e in s.perIn
    requires Ready(s.levels[p], s.perIn, s.perLimit, e)
    requires k == FirstReady(s.levels[s.it], s.perIn, s.perLimit, 0) < Size(s.levels[s.it])
    requires s.it != p || At(s.levels[s.it], k) != e
    ensures Wf(Granted(s, k))
    ensures Potential(Granted(s, k), p, e) < Potential(s, p, e)
  {
    var l := s.levels[s.it];
    GrantedIsWf(s, k);
    if s.it == p {
      OffsetIsRight(l, s.perIn.Keys, e);
      if Offset(l, e) < k {
        ScanSkipsUnready(l, s.perIn, s.perLimit, 0, Offset(l, e));
      }
      GrantElsewhereInLevel(s, k, p, e);
    } else {
      GrantAtOtherLevel(s, k, p, e);
    }
  }

  lemma {:induction false} PopFromProgress<B>(s: Sched<B>, n: nat, p: nat, e: Name)
    requires Wf(s) && p < PRIORITY_COUNT && e in s.perIn
    requires Ready(s.levels[p], s.perIn, s.perLimit, e)
    requires PopFrom(s, n).1.Some?
    requires PopFrom(s, n).1.value.level != p || PopFrom(s, n).1.value.endpoint != e
    ensures Wf(PopFrom(s, n).0) && e in PopFrom(s, n).0.perIn
    ensures Potential(PopFrom(s, n).0, p, e) < Potential(s, p, e)
    decreases n
  {
    var k := FirstReady(s.levels[s.it], s.perIn, s.perLimit, 0);
    if k < Size(s.levels[s.it]) {
      GrantProgress(s, k, p, e);
    } else {
      if s.it == p {
        ScanFindsReady(s, p, e);
      }
      SkipKeepsPotential(s, p, e);
      PopFromProgress(Skipped(s), n - 1, p, e);
    }
  }

  /** Every operation but a grant of (`p`, `e`) itself leaves the potential no larger, and every
      other grant makes it smaller. */
  lemma {:induction false} ApplyProgress<B>(s: Sched<B>, op: Op<B>, p: nat, e: Name)
    requires Wf(s) && Allowed(s.perIn.Keys, op) && p < PRIORITY_COUNT && e in s.perIn
    requires Ready(s.levels[p], s.perIn, s.perLimit, e)
    requires var r := Apply(s, op).1; r.Some? ==> r.value.level != p || r.value.endpoint != e
    ensures Wf(Apply(s, op).0) && e in Apply(s, op).0.perIn
    ensures Potential(Apply(s, op).0, p, e) + (if Apply(s, op).1.Some? then 1 else 0) <= Potential(s, p, e)
  {
    ApplyIsWf(s, op);
    if op.PopOp? {
      if Pop(s).1.Some? {
        PopFromProgress(s, PRIORITY_COUNT, p, e);
      } else {
        PopNoneIffNothingGrantable(s);
        assert !Grantable(s, p, e);
      }
    } else {
      assert Apply(s, op).0.levels[p].pos == s.levels[p].pos;
    }
  }

  // ----- runs -----

  function Final<B>(s: Sched<B>, ops: seq<Op<B>>): Sched<B>
    requires Wf(s) && AllAllowed(s.perIn.Keys, ops)
    decreases |ops|
  {
    if ops == [] then s
    else
      ApplyIsWf(s, ops[0]);
      Final(Apply(s, ops[0]).0, ops[1..])
  }

  /** The grants a run makes, in order. */
  function Grants<B>(s: Sched<B>, ops: seq<Op<B>>): seq<Grant<B>>
    requires Wf(s) && AllAllowed(s.perIn.Keys, ops)
    decreases |ops|
  {
    if ops == [] then []
    else
      ApplyIsWf(s, ops[0]);
      var (t, r) := Apply(s, ops[0]);
      (if r.Some? then [r.value] else []) + Grants(t, ops[1..])
  }

  predicate IsFor<B>(g: Grant<B>, p: nat, e: Name) {
    g.level == p && g.endpoint == e
  }

  /** Until the run grants it, (`p`, `e`) has a queued request and is below its own limit. */
  predicate ReadyUntilGranted<B>(s: Sched<B>, ops: seq<Op<B>>, p: nat, e: Name)
    requires Wf(s) && AllAllowed(s.perIn.Keys, ops) && p < PRIORITY_COUNT
    decreases |ops|
  {
    && Ready(s.levels[p], s.perIn, s.perLimit, e)
    && (ops == [] ||
        (ApplyIsWf(s, ops[0]);
         var (t, r) := Apply(s, ops[0]);
         (r.Some? && IsFor(r.value, p, e)) || ReadyUntilGranted(t, ops[1..], p, e)))
  }

  /** The first grant for (`p`, `e`) among `gs`, if any. */
  function FirstFor<B>(gs: seq<Grant<B>>, p: nat, e: Name): (i: nat)
    ensures i <= |gs|
    ensures i < |gs| ==> IsFor(gs[i], p, e)
    ensures forall j :: 0 <= j < i ==> !IsFor(gs[j], p, e)
  {
    if gs == [] then 0 else if IsFor(gs[0], p, e) then 0 else FirstFor(gs[1..], p, e) + 1
  }

  lemma {:induction false} WaitIsBounded<B>(s: Sched<B>, ops: seq<Op<B>>, p: nat, e: Name)
    requires Wf(s) && AllAllowed(s.perIn.Keys, ops) && p < PRIORITY_COUNT && e in s.perIn
    requires ReadyUntilGranted(s, ops, p, e)
    ensures FirstFor(Grants(s, ops), p, e) <= Potential(s, p, e)
    ensures var i := FirstFor(Grants(s, ops), p, e);
            i < |Grants(s, ops)| ==> Grants(s, ops)[i].buffer == s.levels[p].fifos[e][0]
    decreases |ops|
  {
    if ops != [] {
      ApplyIsWf(s, ops[0]);
      var (t, r) := Apply(s, ops[0]);
      var rest := Grants(t, ops[1..]);
      if r.Some? && IsFor(r.value, p, e) {
        PopSound(s);
        assert Grants(s, ops)[0] == r.value;
      } else {
        ApplyProgress(s, ops[0], p, e);
        WaitIsBounded(t, ops[1..], p, e);
        HeadStays(s, ops[0], p, e);
        if r.Some? {
          assert Grants(s, ops) == [r.value] + rest;
          assert Grants(s, ops)[1..] == rest;
        } else {
          assert Grants(s, ops) == rest;
        }
      }
    }
  }

  /** Only a grant of (`p`, `e`) moves the head of its FIFO. */
  lemma HeadStays<B>(s: Sched<B>, op: Op<B>, p: nat, e: Name)
    requires Wf(s) && Allowed(s.perIn.Keys, op) && p < PRIORITY_COUNT && e in s.perIn
    requires s.levels[p].fifos[e] != []
    requires var r := Apply(s, op).1; r.Some? ==> !IsFor(r.value, p, e)
    ensures Wf(Apply(s, op).0) && e in Apply(s, op).0.levels[p].fifos
    ensures s.levels[p].fifos[e] <= Apply(s, op).0.levels[p].fifos[e]
  {
    ApplyIsWf(s, op);
    if op.PopOp? {
      PopSound(s);
    }
  }

  /** Starvation freedom with a bound: whatever else is pushed, popped, returned or limited, a
      request at the head of a FIFO whose endpoint stays below its own limit is among the next
      21 * E grants, E being the number of endpoints. */
  lemma NoStarvation<B>(s: Sched<B>, ops: seq<Op<B>>, p: nat, e: Name)
    requires Wf(s) && AllAllowed(s.perIn.Keys, ops) && p < PRIORITY_COUNT && e in s.perIn
    requires ReadyUntilGranted(s, ops, p, e)
    requires |Grants(s, ops)| >= 21 * Size(s.levels[p])
    ensures exists i :: 0 <= i < 21 * Size(s.levels[p])
              && IsFor(Grants(s, ops)[i], p, e)
              && Grants(s, ops)[i].buffer == s.levels[p].fifos[e][0]
  {
    WaitIsBounded(s, ops, p, e);
    PotentialBound(s, p, e);
    var i := FirstFor(Grants(s, ops), p, e);
    assert IsFor(Grants(s, ops)[i], p, e);
  }

  // ----- FIFO order and conservation of requests -----

  function PushedBy<B>(op: Op<B>, p: nat, e: Name): seq<B> {
    match op
    case PushOp(b, e', p') => if p' == p && e' == e then [b] else []
    case _ => []
  }

  /** What a run pushes onto (`p`, `e`), in order. */
  function PushedTo<B>(ops: seq<Op<B>>, p: nat, e: Name): seq<B> {
    if ops == [] then [] else PushedBy(ops[0], p, e) + PushedTo(ops[1..], p, e)
  }

  /** The buffers granted to (`p`, `e`), in order. */
  function GrantedTo<B>(gs: seq<Grant<B>>, p: nat, e: Name): seq<B> {
    if gs == [] then []
    else (if IsFor(gs[0], p, e) then [gs[0].buffer] else []) + GrantedTo(gs[1..], p, e)
  }

  function GrantedBy<B>(r: Option<Grant<B>>, p: nat, e: Name): seq<B> {
    if r.Some? && IsFor(r.value, p, e) then [r.value.buffer] else []
  }

  lemma {:induction false} GrantedToCons<B>(r: Option<Grant<B>>, gs: seq<Grant<B>>, p: nat, e: Name)
    ensures GrantedTo((if r.Some? then [r.value] else []) + gs, p, e) == GrantedBy(r, p, e) + GrantedTo(gs, p, e)
  {
    if r.Some? {
      assert ([r.value] + gs)[1..] == gs;
    } else {
      assert [] + gs == gs;
    }
  }

  function Fifo<B>(s: Sched<B>, p: nat, e: Name): seq<B>
  {
    if p < |s.levels| && e in s.levels[p].fifos then s.levels[p].fifos[e] else []
  }

  /** A grant takes the head of one FIFO and leaves all others. */
  lemma FifoAfterGrant<B>(s: Sched<B>, t: Sched<B>, g: Grant<B>, p: nat, e: Name)
    requires Wf(s) && GrantedHead(s, t, g)
    ensures Fifo(s, p, e) == GrantedBy(Some(g), p, e) + Fifo(t, p, e)
  {
    hide Wf;
    GrantedIsQueued(s, t, g);
    if IsFor(g, p, e) {
      assert s.levels[p].fifos[e] == [g.buffer] + s.levels[p].fifos[e][1..];
    } else {
      assert [] + Fifo(t, p, e) == Fifo(t, p, e);
    }
  }

  lemma GrantedIsQueued<B>(s: Sched<B>, t: Sched<B>, g: Grant<B>)
    requires Wf(s) && GrantedHead(s, t, g)
    ensures g.level < |s.levels| == |t.levels| == PRIORITY_COUNT
    ensures g.endpoint in s.levels[g.level].fifos && s.levels[g.level].fifos[g.endpoint] != []
  {
  }

  lemma FifoAfterPop<B>(s: Sched<B>, p: nat, e: Name)
    requires Wf(s)
    ensures Fifo(s, p, e) == GrantedBy(Pop(s).1, p, e) + Fifo(Pop(s).0, p, e)
  {
    hide Wf, Pop, GrantedHead, Fifo, GrantedBy;
    PopSound(s);
    var (t, r) := Pop(s);
    match r
    case Some(g) => FifoAfterGrant(s, t, g, p, e);
    case None => NothingGranted(s, t, p, e);
  }

  lemma NothingGranted<B>(s: Sched<B>, t: Sched<B>, p: nat, e: Name)
    requires SameButRotation(s, t)
    ensures Fifo(s, p, e) == GrantedBy(None, p, e) + Fifo(t, p, e)
  {
    assert [] + Fifo(t, p, e) == Fifo(t, p, e);
  }

  lemma FifoStep<B>(s: Sched<B>, op: Op<B>, p: nat, e: Name)
    requires Wf(s) && Allowed(s.perIn.Keys, op) && p < PRIORITY_COUNT && e in s.perIn
    ensures Fifo(s, p, e) + PushedBy(op, p, e) == GrantedBy(Apply(s, op).1, p, e) + Fifo(Apply(s, op).0, p, e)
  {
    hide Pop;
    if op.PopOp? {
      FifoAfterPop(s, p, e);
    }
  }

  lemma Chain<B>(a: seq<B>, push: seq<B>, grant: seq<B>, b: seq<B>,
                 pushes: seq<B>, grants: seq<B>, c: seq<B>)
    requires a + push == grant + b && b + pushes == grants + c
    ensures a + (push + pushes) == (grant + grants) + c
  {
    calc {
      a + (push + pushes);
      (a + push) + pushes;
      grant + (b + pushes);
      (grant + grants) + c;
    }
  }

  /** Per endpoint and priority, requests leave in the order they came: what was queued or pushed
      is what was granted followed by what is still queued. */
  lemma {:induction false} FifoOrder<B>(s: Sched<B>, ops: seq<Op<B>>, p: nat, e: Name)
    requires Wf(s) && AllAllowed(s.perIn.Keys, ops) && p < PRIORITY_COUNT && e in s.perIn
    ensures Fifo(s, p, e) + PushedTo(ops, p, e) == GrantedTo(Grants(s, ops), p, e) + Fifo(Final(s, ops), p, e)
    decreases |ops|
  {
    if ops != [] {
      ApplyIsWf(s, ops[0]);
      var (t, r) := Apply(s, ops[0]);
      var rest := ops[1..];
      FifoOrder(t, rest, p, e);
      GrantedToCons(r, Grants(t, rest), p, e);
      FifoStep(s, ops[0], p, e);
      Chain(Fifo(s, p, e), PushedBy(ops[0], p, e), GrantedBy(r, p, e), Fifo(t, p, e),
            PushedTo(rest, p, e), GrantedTo(Grants(t, rest), p, e), Fifo(Final(t, rest), p, e));
    }
  }

  // ----- limits -----

  predicate WithinLimits<B>(s: Sched<B>) {
    && s.inFlight <= s.globalLimit
    && forall e :: e in s.perIn && e in s.perLimit ==> s.perIn[e] <= s.perLimit[e]
  }

  /** A leaf service never calls `increment_in_flight`; with its limits left alone, both counters
      stay within them for ever. */
  lemma {:induction false} LeafStaysWithinLimits<B>(s: Sched<B>, ops: seq<Op<B>>)
    requires Wf(s) && AllAllowed(s.perIn.Keys, ops) && WithinLimits(s)
    requires forall i :: 0 <= i < |ops| ==> ops[i].PushOp? || ops[i].PopOp? || ops[i].DecrementOp?
    ensures Wf(Final(s, ops)) && WithinLimits(Final(s, ops))
    ensures Final(s, ops).globalLimit == s.globalLimit && Final(s, ops).perLimit == s.perLimit
    decreases |ops|
  {
    if ops != [] {
      ApplyIsWf(s, ops[0]);
      if ops[0].PopOp? {
        PopSound(s);
      }
      LeafStaysWithinLimits(Apply(s, ops[0]).0, ops[1..]);
    }
  }
}
