/** Whole runs: credits are conserved, no request that could be granted waits, nothing wedges. */
module WorldRuns {
  import opened Names
  import opened Options
  import opened Sums
  import opened Scheduler
  import opened Beats
  import opened Protocol
  import opened Worlds
  import opened WorldRpcs
  import opened WorldSteps

  /** A run: every event is allowed where it happens. */
  ghost predicate Run(cfg: Config, w: World, evs: seq<Event>)
    requires ConfigOk(cfg) && Inv(cfg, w)
    decreases |evs|
  {
    evs == [] ||
    (Guard(cfg, w, evs[0]) &&
     (NextKeepsInv(cfg, w, evs[0]);
      Run(cfg, Next(cfg, w, evs[0]), evs[1..])))
  }

  ghost function After(cfg: Config, w: World, evs: seq<Event>): World
    requires ConfigOk(cfg) && Inv(cfg, w) && Run(cfg, w, evs)
    decreases |evs|
  {
    if evs == [] then w
    else
      NextKeepsInv(cfg, w, evs[0]);
      After(cfg, Next(cfg, w, evs[0]), evs[1..])
  }

  /** A sidecar that just started. */
  ghost predicate Fresh(cfg: Config, w: World) {
    && Wf(w.side.queue) && NothingQueued(w.side.queue)
    && w.side.queue.perIn == (map e | e in cfg :: 0) && w.side.queue.inFlight == 0
    && w.side.rpcs == map[] && w.side.ppm == {}
    && w.grants == w.admissions == w.refunds == (map e | e in cfg :: 0)
    && w.ledgers == map[]
  }

  lemma FreshIsInv(cfg: Config, w: World)
    requires Fresh(cfg, w)
    ensures Inv(cfg, w)
  {
    SumZero(w.side.queue.perIn);
    forall e | e in cfg
      ensures Held(w, e) == Sum(Weights(cfg, w.side.rpcs, w.ledgers, e))
    {
      SumZero(Weights(cfg, w.side.rpcs, w.ledgers, e));
    }
  }

  lemma {:induction false} RunKeepsInv(cfg: Config, w: World, evs: seq<Event>)
    requires ConfigOk(cfg) && Inv(cfg, w) && Run(cfg, w, evs)
    ensures Inv(cfg, After(cfg, w, evs))
    decreases |evs|
  {
    hide Inv, Guard, Next;
    if evs != [] {
      NextKeepsInv(cfg, w, evs[0]);
      RunKeepsInv(cfg, Next(cfg, w, evs[0]), evs[1..]);
    }
  }

  /** Credit conservation over whole runs, in all three fan-out modes: after any run of a sidecar
      that started fresh, what an endpoint's counter shows is the credits in transit plus the slots
      its admitted RPCs hold, and the total counter is the sum over the endpoints. */
  lemma CreditsAreConserved(cfg: Config, w: World, evs: seq<Event>)
    requires ConfigOk(cfg) && Inv(cfg, w) && Run(cfg, w, evs)
    ensures var v := After(cfg, w, evs);
            && v.side.queue.perIn.Keys == cfg.Keys == v.grants.Keys
            && v.admissions.Keys == cfg.Keys && v.refunds.Keys == cfg.Keys
            && (forall e :: e in cfg ==>
                 v.side.queue.perIn[e]
                 == v.grants[e] + v.admissions[e] + v.refunds[e] + Sum(Weights(cfg, v.side.rpcs, v.ledgers, e)))
            && v.side.queue.inFlight == Sum(v.side.queue.perIn)
  {
    hide Guard, Next, Wf;
    RunKeepsInv(cfg, w, evs);
    var v := After(cfg, w, evs);
    forall e | e in cfg
      ensures Held(v, e) == Sum(Weights(cfg, v.side.rpcs, v.ledgers, e))
    {
    }
  }

  lemma {:induction false} WeightsNotNegative(cfg: Config, w: World, e: Name)
    requires RpcsOk(cfg, w)
    ensures Sum(Weights(cfg, w.side.rpcs, w.ledgers, e)) >= 0
  {
    hide SlotsHeld, RpcOk;
    var weights := Weights(cfg, w.side.rpcs, w.ledgers, e);
    forall p | p in weights
      ensures weights[p] >= 0
    {
      SlotsNotNegative(cfg[w.side.rpcs[p].service], w.side.rpcs[p], w.ledgers[p], w.side.counter);
    }
    SumNonNegative(weights);
  }

  lemma {:induction false} CounterNotNegative(cfg: Config, w: World, e: Name)
    requires ServerOk(cfg, w) && RpcsOk(cfg, w) && Balanced(cfg, w) && e in cfg
    ensures w.side.queue.perIn[e] >= 0
  {
    hide Wf, RpcsOk, Weights;
    assert Held(w, e) == Sum(Weights(cfg, w.side.rpcs, w.ledgers, e));
    WeightsNotNegative(cfg, w, e);
  }

  /** No counter is ever negative. */
  lemma {:induction false} CountersNotNegative(cfg: Config, w: World)
    requires Inv(cfg, w)
    ensures w.side.queue.perIn.Keys == cfg.Keys
    ensures forall e :: e in cfg ==> w.side.queue.perIn[e] >= 0
    ensures w.side.queue.inFlight >= 0
  {
    hide Wf, RpcsOk, QueueOk, Balanced;
    forall e | e in cfg
      ensures w.side.queue.perIn[e] >= 0
    {
      CounterNotNegative(cfg, w, e);
    }
    SumNonNegative(w.side.queue.perIn);
  }

  /** Once nothing is in transit and no RPC is left, every counter is back at zero. */
  lemma {:induction false} AllCreditsComeBack(cfg: Config, w: World)
    requires Inv(cfg, w) && w.ledgers == map[]
    requires forall e :: e in cfg ==> w.grants[e] == 0 && w.admissions[e] == 0 && w.refunds[e] == 0
    ensures forall e :: e in cfg ==> w.side.queue.perIn[e] == 0
    ensures w.side.queue.inFlight == 0
  {
    forall e | e in cfg
      ensures w.side.queue.perIn[e] == 0
    {
      SumZero(Weights(cfg, w.side.rpcs, w.ledgers, e));
      assert Held(w, e) == Sum(Weights(cfg, w.side.rpcs, w.ledgers, e));
    }
    SumZero(w.side.queue.perIn);
  }

  // ----- work conservation and no wedge -----

  /** The beat of the credit queue that an event runs, if any. */
  ghost function BeatOf(cfg: Config, w: World, ev: Event): Option<Beat<Request>>
    requires Inv(cfg, w) && Guard(cfg, w, ev)
  {
    match ev
    case CreditRequestIn(e, p, request, limit, globalLimit) => Some(Requested(request, e, p, limit, globalLimit))
    case CreditReturnIn(e) => Some(Released(e))
    case GrantIn(ds, id) =>
      GrantPossible(cfg, w, ds, id);
      var r := w.side.rpcs[id.parent];
      if OnBranchCredit(cfg[r.service], r, id, ds).2 then Some(Released(r.service)) else None
    case SubResponseIn(id) =>
      var r := w.side.rpcs[id.parent];
      if OnBranchResponse(cfg[r.service], r).1 then Some(Reacquired(r.service)) else None
    case ResponseOut(parent) => Some(Released(w.side.rpcs[parent].service))
    case _ => None
  }

  ghost predicate RunsBeat(w: World, v: World, b: Option<Beat<Request>>)
    requires Wf(w.side.queue)
  {
    if b.None? then v.side.queue == w.side.queue
    else Known(w.side.queue, b.value) && v.side.queue == Step(w.side.queue, b.value).0
  }

  lemma GrantRunsBeat(cfg: Config, w: World, ds: Name, id: Id)
    requires Inv(cfg, w) && Guard(cfg, w, GrantIn(ds, id))
    ensures Wf(w.side.queue) && RunsBeat(w, Next(cfg, w, GrantIn(ds, id)), BeatOf(cfg, w, GrantIn(ds, id)))
  {
    hide Wf, Balanced, QueueOk, RpcOk, Step, OnBranchCredit, Popped, Guard, Sent, Forwarded;
    GrantPossible(cfg, w, ds, id);
  }

  lemma ResponseRunsBeat(cfg: Config, w: World, ev: Event)
    requires Inv(cfg, w) && Guard(cfg, w, ev) && (ev.SubResponseIn? || ev.ResponseOut?)
    ensures Wf(w.side.queue) && RunsBeat(w, Next(cfg, w, ev), BeatOf(cfg, w, ev))
  {
    hide Wf, Balanced, QueueOk, RpcOk, Step, OnBranchResponse, Sent;
  }

  /** Every event touches the credit queue through one beat or not at all. */
  lemma {:induction false} NextIsOneBeat(cfg: Config, w: World, ev: Event)
    requires Inv(cfg, w) && Guard(cfg, w, ev)
    ensures var b := BeatOf(cfg, w, ev);
            if b.None? then Next(cfg, w, ev).side.queue == w.side.queue
            else Known(w.side.queue, b.value) && Next(cfg, w, ev).side.queue == Step(w.side.queue, b.value).0
  {
    hide Wf, Balanced, QueueOk, RpcsOk, Step, Sent;
    match ev
    case GrantIn(ds, id) => GrantRunsBeat(cfg, w, ds, id);
    case SubResponseIn(_) => ResponseRunsBeat(cfg, w, ev);
    case ResponseOut(_) => ResponseRunsBeat(cfg, w, ev);
    case _ =>
  }

  lemma {:induction false} SlotBelowSum(cfg: Config, w: World, p: nat)
    requires RpcsOk(cfg, w) && p in w.ledgers
    ensures SlotsHeld(cfg[w.side.rpcs[p].service], w.ledgers[p])
         <= Sum(Weights(cfg, w.side.rpcs, w.ledgers, w.side.rpcs[p].service))
  {
    hide SlotsHeld, RpcOk;
    var weights := Weights(cfg, w.side.rpcs, w.ledgers, w.side.rpcs[p].service);
    forall q | q in weights
      ensures weights[q] >= 0
    {
      SlotsNotNegative(cfg[w.side.rpcs[q].service], w.side.rpcs[q], w.ledgers[q], w.side.counter);
    }
    SumNonNegative(weights);
    assert p in weights;
  }

  /** The RPC of a release holds a slot, so its endpoint's counter is at least one. */
  lemma {:induction false} HolderIsCounted(cfg: Config, w: World, p: nat)
    requires ServerOk(cfg, w) && RpcsOk(cfg, w) && Balanced(cfg, w) && p in w.ledgers
    requires SlotsHeld(cfg[w.side.rpcs[p].service], w.ledgers[p]) >= 1
    ensures w.side.queue.perIn[w.side.rpcs[p].service] >= 1
  {
    hide Wf, SlotsHeld, RpcOk, Weights;
    var e := w.side.rpcs[p].service;
    assert Held(w, e) == Sum(Weights(cfg, w.side.rpcs, w.ledgers, e));
    SlotBelowSum(cfg, w, p);
  }

  lemma {:induction false} ReturnIsCounted(cfg: Config, w: World, e: Name)
    requires ServerOk(cfg, w) && RpcsOk(cfg, w) && Balanced(cfg, w) && e in cfg && w.refunds[e] >= 1
    ensures w.side.queue.perIn[e] >= 1
  {
    hide Wf, Weights, RpcsOk;
    assert Held(w, e) == Sum(Weights(cfg, w.side.rpcs, w.ledgers, e));
    WeightsNotNegative(cfg, w, e);
  }

  /** No event gives back a credit that is not out. */
  lemma {:induction false} BeatIsCovered(cfg: Config, w: World, ev: Event)
    requires ConfigOk(cfg) && Inv(cfg, w) && Guard(cfg, w, ev) && BeatOf(cfg, w, ev).Some?
    ensures Known(w.side.queue, BeatOf(cfg, w, ev).value) && Covered(w.side.queue, BeatOf(cfg, w, ev).value)
  {
    hide Wf, RpcOk, Balanced, SlotsHeld, Pending, Weights, QueueOk;
    match ev
    case CreditReturnIn(e) => ReturnIsCounted(cfg, w, e);
    case GrantIn(ds, id) =>
      GrantPossible(cfg, w, ds, id);
      var r, l := w.side.rpcs[id.parent], w.ledgers[id.parent];
      var m := cfg[r.service];
      assert RpcOk(m, r, l, w.side.counter);
      GrantKeepsRpc(m, r, l, w.side.counter, ds, id);
      SlotsNotNegative(m, OnBranchCredit(m, r, id, ds).0, CreditArrived(m, r, l, ds, id.branch), w.side.counter);
      HolderIsCounted(cfg, w, id.parent);
    case ResponseOut(parent) =>
      var r, l := w.side.rpcs[parent], w.ledgers[parent];
      assert RpcOk(cfg[r.service], r, l, w.side.counter);
      FinishedHoldsOne(cfg[r.service], r, l, w.side.counter);
      HolderIsCounted(cfg, w, parent);
    case _ =>
  }

  /** In the run, no Credit Request raises a limit. */
  ghost predicate LimitsNotRaised(cfg: Config, w: World, evs: seq<Event>)
    requires ConfigOk(cfg) && Inv(cfg, w) && Run(cfg, w, evs)
    decreases |evs|
  {
    evs == [] ||
    (NextKeepsInv(cfg, w, evs[0]);
     NextIsOneBeat(cfg, w, evs[0]);
     var b := BeatOf(cfg, w, evs[0]);
     && (b.Some? ==> NotRaised(w.side.queue, b.value))
     && LimitsNotRaised(cfg, Next(cfg, w, evs[0]), evs[1..]))
  }

  /** Work conservation over whole runs: while limits are not raised, no event leaves behind a queued
      Credit Request that could be granted. */
  lemma {:induction false} NoGrantableRequestWaits(cfg: Config, w: World, evs: seq<Event>)
    requires ConfigOk(cfg) && Inv(cfg, w) && Run(cfg, w, evs) && LimitsNotRaised(cfg, w, evs)
    requires Idle(w.side.queue)
    ensures Idle(After(cfg, w, evs).side.queue)
    decreases |evs|
  {
    hide Idle, Guard, Next, Step, Wf, RpcsOk, QueueOk, Balanced, NotRaised;
    if evs != [] {
      NextKeepsInv(cfg, w, evs[0]);
      NextIsOneBeat(cfg, w, evs[0]);
      var b := BeatOf(cfg, w, evs[0]);
      if b.Some? {
        StepKeepsIdle(w.side.queue, b.value);
      }
      NoGrantableRequestWaits(cfg, Next(cfg, w, evs[0]), evs[1..]);
    }
  }

  /** After every event of the run nothing grantable waits. */
  ghost predicate AlwaysIdle(cfg: Config, w: World, evs: seq<Event>)
    requires ConfigOk(cfg) && Inv(cfg, w) && Run(cfg, w, evs)
    decreases |evs|
  {
    evs == [] ||
    (NextKeepsInv(cfg, w, evs[0]);
     Idle(Next(cfg, w, evs[0]).side.queue) && AlwaysIdle(cfg, Next(cfg, w, evs[0]), evs[1..]))
  }

  /** Right before each pop of the run at most one request could be granted. */
  ghost predicate OneGrantIsAlwaysEnough(cfg: Config, w: World, evs: seq<Event>)
    requires ConfigOk(cfg) && Inv(cfg, w) && Run(cfg, w, evs)
    decreases |evs|
  {
    evs == [] ||
    (NextKeepsInv(cfg, w, evs[0]);
     NextIsOneBeat(cfg, w, evs[0]);
     var b := BeatOf(cfg, w, evs[0]);
     && (b.Some? && !b.value.Reacquired? ==>
           (BeforePopIsWf(w.side.queue, b.value); OneGrantIsEnough(BeforePop(w.side.queue, b.value))))
     && OneGrantIsAlwaysEnough(cfg, Next(cfg, w, evs[0]), evs[1..]))
  }

  /** Work conservation over whole runs, whatever happens to the limits: no event leaves a grantable request
      waiting if and only if at most one request could be granted right before each pop. */
  lemma {:induction false} AlwaysIdleIff(cfg: Config, w: World, evs: seq<Event>)
    requires ConfigOk(cfg) && Inv(cfg, w) && Run(cfg, w, evs) && Idle(w.side.queue)
    ensures AlwaysIdle(cfg, w, evs) <==> OneGrantIsAlwaysEnough(cfg, w, evs)
    decreases |evs|
  {
    hide Idle, Guard, Next, Inv, Step, BeforePop, OneGrantIsEnough;
    if evs != [] {
      NextKeepsInv(cfg, w, evs[0]);
      NextIsOneBeat(cfg, w, evs[0]);
      EventSettlesIff(cfg, w, evs[0]);
      if Idle(Next(cfg, w, evs[0]).side.queue) {
        AlwaysIdleIff(cfg, Next(cfg, w, evs[0]), evs[1..]);
      }
    }
  }

  /** One event of the run. */
  lemma EventSettlesIff(cfg: Config, w: World, ev: Event)
    requires Inv(cfg, w) && Guard(cfg, w, ev) && Idle(w.side.queue)
    ensures Wf(w.side.queue)
    ensures var b := BeatOf(cfg, w, ev);
      && (b.Some? ==> Known(w.side.queue, b.value) && Wf(BeforePop(w.side.queue, b.value)))
      && (Idle(Next(cfg, w, ev).side.queue) <==>
           (b.Some? && !b.value.Reacquired? ==> OneGrantIsEnough(BeforePop(w.side.queue, b.value))))
  {
    hide Idle, Guard, Next, Step, BeforePop, OneGrantIsEnough, RpcsOk, QueueOk, Balanced;
    NextIsOneBeat(cfg, w, ev);
    var b := BeatOf(cfg, w, ev);
    if b.Some? {
      BeforePopIsWf(w.side.queue, b.value);
      if b.value.Reacquired? {
        StepKeepsIdle(w.side.queue, b.value);
      } else {
        StepSettlesIff(w.side.queue, b.value);
      }
    }
  }

  predicate PositiveLimits(evs: seq<Event>) {
    forall i :: 0 <= i < |evs| ==>
      evs[i].CreditRequestIn? ==>
        && (evs[i].limit.Some? ==> evs[i].limit.value >= 1)
        && (evs[i].globalLimit.Some? ==> evs[i].globalLimit.value >= 1)
  }

  lemma {:induction false} NextNotWedged(cfg: Config, w: World, ev: Event)
    requires ConfigOk(cfg) && Inv(cfg, w) && Guard(cfg, w, ev) && PositiveLimits([ev])
    requires Sane(w.side.queue) && Unwedged(w.side.queue)
    ensures Sane(Next(cfg, w, ev).side.queue) && Unwedged(Next(cfg, w, ev).side.queue)
  {
    hide Guard, Next, Step, Inv, Sane, Unwedged, Covered;
    NextIsOneBeat(cfg, w, ev);
    var b := BeatOf(cfg, w, ev);
    if b.Some? {
      BeatIsCovered(cfg, w, ev);
      BeatLimits(cfg, w, ev);
      StepNoWedge(w.side.queue, b.value);
    }
  }

  lemma BeatLimits(cfg: Config, w: World, ev: Event)
    requires Inv(cfg, w) && Guard(cfg, w, ev) && PositiveLimits([ev]) && BeatOf(cfg, w, ev).Some?
    ensures KeepsLimitsPositive(BeatOf(cfg, w, ev).value)
  {
    assert [ev][0] == ev;
  }

  /** No wedge over whole runs, even when limits move up and down: while they stay at least one,
      after every event a non-empty credit queue has at least one credit in flight. That such a credit comes
      back, and pops, is `WorldProgress.CreditsComeBack`. */
  lemma {:induction false} NothingWedges(cfg: Config, w: World, evs: seq<Event>)
    requires ConfigOk(cfg) && Inv(cfg, w) && Run(cfg, w, evs) && PositiveLimits(evs)
    requires Sane(w.side.queue) && Unwedged(w.side.queue)
    ensures Sane(After(cfg, w, evs).side.queue) && Unwedged(After(cfg, w, evs).side.queue)
    decreases |evs|
  {
    hide Guard, Next, Inv, Sane, Unwedged;
    if evs != [] {
      NextKeepsInv(cfg, w, evs[0]);
      assert PositiveLimits([evs[0]]);
      NextNotWedged(cfg, w, evs[0]);
      NothingWedges(cfg, Next(cfg, w, evs[0]), evs[1..]);
    }
  }

  /** A fresh sidecar with positive limits meets what the two theorems above start from. */
  lemma FreshIsQuiet(cfg: Config, w: World)
    requires Fresh(cfg, w)
    requires w.side.queue.globalLimit >= 1
    requires forall e :: e in w.side.queue.perLimit ==> w.side.queue.perLimit[e] >= 1
    ensures Inv(cfg, w) && Idle(w.side.queue) && Sane(w.side.queue) && Unwedged(w.side.queue)
  {
    FreshIsInv(cfg, w);
    SumZero(w.side.queue.perIn);
  }
}
