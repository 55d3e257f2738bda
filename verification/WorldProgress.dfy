/** A credit that is out comes back: from every state of the world with a credit in flight, a run without new
    Credit Requests leads to a release. And a run that leaves an RPC with two slots. */
module WorldProgress {
  import opened Names
  import opened Options
  import opened Sums
  import opened Scheduler
  import opened SchedulerProofs
  import opened Beats
  import opened Protocol
  import opened Worlds
  import opened WorldRpcs
  import opened WorldSteps
  import opened WorldRuns

  // ----- one RPC moves on -----

  /** The steps that are left to an RPC before it may answer. */
  function StepsLeft(m: Mapping, l: Ledger): nat {
    (if m.mode.Parallel? && l.calls < Fan(m) then 3 * (Fan(m) - l.calls) else 0) + 2 * |l.waiting| + |l.running|
  }

  /** What a step of an RPC's own leaves of it: the RPC, its service, and fewer steps. */
  ghost predicate Nearer(cfg: Config, w: World, v: World, p: nat)
    requires RpcsOk(cfg, w) && RpcsOk(cfg, v) && p in w.ledgers
  {
    && p in v.ledgers && v.side.rpcs[p].service == w.side.rpcs[p].service
    && StepsLeft(cfg[w.side.rpcs[p].service], v.ledgers[p]) < StepsLeft(cfg[w.side.rpcs[p].service], w.ledgers[p])
  }

  lemma SubResponseNears(cfg: Config, w: World, id: Id)
    requires ConfigOk(cfg) && Inv(cfg, w) && Guard(cfg, w, SubResponseIn(id))
    ensures RpcsOk(cfg, Next(cfg, w, SubResponseIn(id))) && Nearer(cfg, w, Next(cfg, w, SubResponseIn(id)), id.parent)
  {
    hide Wf, RpcOk, QueueOk, Balanced, OnBranchResponse, OnEgressResponse;
    NextKeepsInv(cfg, w, SubResponseIn(id));
    var r, l := w.side.rpcs[id.parent], w.ledgers[id.parent];
    SubResponseEffect(cfg, w, id, r.service);
    ServiceStaysAfterResponse(cfg[r.service], r);
    assert |l.running - {id.branch}| == |l.running| - 1;
  }

  lemma GrantNears(cfg: Config, w: World, ds: Name, id: Id)
    requires ConfigOk(cfg) && Inv(cfg, w) && Guard(cfg, w, GrantIn(ds, id))
    ensures RpcsOk(cfg, Next(cfg, w, GrantIn(ds, id))) && Nearer(cfg, w, Next(cfg, w, GrantIn(ds, id)), id.parent)
  {
    hide Wf, RpcOk, QueueOk, Balanced, OnBranchCredit, GrantStep, Popped;
    NextKeepsInv(cfg, w, GrantIn(ds, id));
    var r, l := w.side.rpcs[id.parent], w.ledgers[id.parent];
    var m := cfg[r.service];
    GrantEffect(cfg, w, ds, id, r.service);
    ServiceStays(m, r, id, ds);
    assert |l.waiting - multiset{(ds, id.branch)}| == |l.waiting| - 1;
    assert |l.running + {id.branch}| <= |l.running| + 1;
    assert |l.running + {}| == |l.running| by { assert l.running + {} == l.running; }
  }

  lemma SubCallNears(cfg: Config, w: World, p: nat, ds: Name)
    requires ConfigOk(cfg) && Inv(cfg, w) && Guard(cfg, w, SubCallOut(p, ds)) && cfg[w.side.rpcs[p].service].mode.Parallel?
    ensures RpcsOk(cfg, Next(cfg, w, SubCallOut(p, ds))) && Nearer(cfg, w, Next(cfg, w, SubCallOut(p, ds)), p)
  {
    hide Wf, RpcOk, QueueOk, Balanced;
    NextKeepsInv(cfg, w, SubCallOut(p, ds));
    var l := w.ledgers[p];
    assert |l.waiting + multiset{(ds, w.side.counter + 1)}| == |l.waiting| + 1;
  }

  /** The next step of an RPC that is not ready to answer. */
  lemma StepOf(cfg: Config, w: World, p: nat) returns (ev: Event)
    requires ConfigOk(cfg) && Inv(cfg, w) && p in w.ledgers
    ensures Guard(cfg, w, ev) && !ev.CreditRequestIn?
    ensures ev == ResponseOut(p) || (RpcsOk(cfg, Next(cfg, w, ev)) && Nearer(cfg, w, Next(cfg, w, ev), p))
  {
    hide Wf, RpcOk, QueueOk, Balanced, Nearer, Next;
    var r, l := w.side.rpcs[p], w.ledgers[p];
    var m := cfg[r.service];
    RoundIsPossible(m, r, l, w.side.counter);
    if l.running != {} {
      var b :| b in l.running;
      ev := SubResponseIn(Id(p, b));
      SubResponseNears(cfg, w, Id(p, b));
    } else if x :| x in l.waiting {
      ev := GrantIn(x.0, Id(p, x.1));
      GrantNears(cfg, w, x.0, Id(p, x.1));
    } else if m.mode.Parallel? && l.calls != 0 && l.calls != Fan(m) {
      ev := SubCallOut(p, m.downstreams[0]);
      SubCallNears(cfg, w, p, m.downstreams[0]);
    } else {
      ev := ResponseOut(p);
    }
  }

  lemma RoundIsPossible(m: Mapping, r: Hosted, l: Ledger, counter: nat)
    requires RpcOk(m, r, l, counter)
    ensures m.mode.Parallel? ==> l.calls <= Fan(m)
  {
  }

  // ----- a run to a release -----

  ghost predicate NoRequests(evs: seq<Event>) {
    forall i :: 0 <= i < |evs| ==> !evs[i].CreditRequestIn?
  }

  /** The last event of the run gives a credit back and pops. */
  ghost predicate EndsInRelease(cfg: Config, w: World, evs: seq<Event>)
    requires ConfigOk(cfg) && Inv(cfg, w) && Run(cfg, w, evs)
    decreases |evs|
  {
    evs != [] &&
    (NextKeepsInv(cfg, w, evs[0]);
     if |evs| == 1 then BeatOf(cfg, w, evs[0]).Some? && BeatOf(cfg, w, evs[0]).value.Released?
     else EndsInRelease(cfg, Next(cfg, w, evs[0]), evs[1..]))
  }

  ghost predicate LeadsToRelease(cfg: Config, w: World, evs: seq<Event>)
    requires ConfigOk(cfg) && Inv(cfg, w)
  {
    Run(cfg, w, evs) && NoRequests(evs) && EndsInRelease(cfg, w, evs)
  }

  lemma OneStepReleases(cfg: Config, w: World, ev: Event)
    requires ConfigOk(cfg) && Inv(cfg, w) && Guard(cfg, w, ev) && (ev.ResponseOut? || ev.CreditReturnIn?)
    ensures LeadsToRelease(cfg, w, [ev])
  {
    hide Inv, Next;
    NextKeepsInv(cfg, w, ev);
    assert [ev][1..] == [];
    assert Run(cfg, Next(cfg, w, ev), []);
  }

  lemma FirstThen(cfg: Config, w: World, ev: Event, evs: seq<Event>)
    requires ConfigOk(cfg) && Inv(cfg, w) && Guard(cfg, w, ev) && !ev.CreditRequestIn?
    requires Inv(cfg, Next(cfg, w, ev)) && LeadsToRelease(cfg, Next(cfg, w, ev), evs)
    ensures LeadsToRelease(cfg, w, [ev] + evs)
  {
    hide Inv, Next, Guard;
    assert ([ev] + evs)[1..] == evs && ([ev] + evs)[0] == ev;
  }

  /** An admitted RPC can go on until a slot is given back, at the latest by its own answer. */
  lemma {:induction false} RpcLeadsToRelease(cfg: Config, w: World, p: nat) returns (evs: seq<Event>)
    requires ConfigOk(cfg) && Inv(cfg, w) && p in w.ledgers
    ensures LeadsToRelease(cfg, w, evs)
    decreases StepsLeft(cfg[w.side.rpcs[p].service], w.ledgers[p])
  {
    hide Guard, Next, LeadsToRelease, Wf, RpcOk, QueueOk, Balanced, StepsLeft;
    var ev := StepOf(cfg, w, p);
    if ev == ResponseOut(p) {
      OneStepReleases(cfg, w, ev);
      evs := [ev];
    } else {
      NextKeepsInv(cfg, w, ev);
      var rest := RpcLeadsToRelease(cfg, Next(cfg, w, ev), p);
      FirstThen(cfg, w, ev, rest);
      evs := [ev] + rest;
    }
  }

  lemma RefusedLeadsToRelease(cfg: Config, w: World, e: Name) returns (evs: seq<Event>)
    requires ConfigOk(cfg) && Inv(cfg, w) && e in cfg && w.grants[e] > 0
    ensures LeadsToRelease(cfg, w, evs)
  {
    hide LeadsToRelease, Wf, RpcsOk, QueueOk, Balanced;
    NextKeepsInv(cfg, w, CreditRefused(e));
    var v := Next(cfg, w, CreditRefused(e));
    assert Guard(cfg, v, CreditReturnIn(e));
    OneStepReleases(cfg, v, CreditReturnIn(e));
    FirstThen(cfg, w, CreditRefused(e), [CreditReturnIn(e)]);
    evs := [CreditRefused(e)] + [CreditReturnIn(e)];
  }

  lemma AdmittedLeadsToRelease(cfg: Config, w: World, e: Name) returns (evs: seq<Event>)
    requires ConfigOk(cfg) && Inv(cfg, w) && e in cfg && w.admissions[e] > 0
    ensures LeadsToRelease(cfg, w, evs)
  {
    hide LeadsToRelease, Wf, RpcOk, QueueOk, Balanced;
    NextKeepsInv(cfg, w, RequestIn(e));
    var v := Next(cfg, w, RequestIn(e));
    var rest := RpcLeadsToRelease(cfg, v, w.side.counter + 1);
    FirstThen(cfg, w, RequestIn(e), rest);
    evs := [RequestIn(e)] + rest;
  }

  /** With a credit in flight some endpoint's counter is positive. */
  lemma SomeCounterIsPositive(cfg: Config, w: World) returns (e: Name)
    requires Inv(cfg, w) && w.side.queue.inFlight >= 1
    ensures e in cfg && w.side.queue.perIn[e] >= 1
  {
    hide Wf, RpcsOk, QueueOk, Balanced;
    CountersNotNegative(cfg, w);
    if forall x :: x in w.side.queue.perIn ==> w.side.queue.perIn[x] == 0 {
      SumZero(w.side.queue.perIn);
    }
    e :| e in w.side.queue.perIn && w.side.queue.perIn[e] != 0;
  }

  /** A positive counter stands for a credit in transit or an admitted RPC. */
  lemma SomethingIsOut(cfg: Config, w: World, e: Name)
    requires Inv(cfg, w) && e in cfg && w.side.queue.perIn[e] >= 1
    ensures w.grants[e] > 0 || w.admissions[e] > 0 || w.refunds[e] > 0 || w.ledgers != map[]
  {
    hide Wf, RpcsOk, QueueOk;
    if w.ledgers == map[] {
      SumZero(Weights(cfg, w.side.rpcs, w.ledgers, e));
      assert Held(w, e) == Sum(Weights(cfg, w.side.rpcs, w.ledgers, e));
    }
  }

  /** Progress: whenever a credit is in flight, events other than new Credit Requests lead to a release, whose pop
      then serves what waits. */
  lemma CreditsComeBack(cfg: Config, w: World) returns (evs: seq<Event>)
    requires ConfigOk(cfg) && Inv(cfg, w) && w.side.queue.inFlight >= 1
    ensures LeadsToRelease(cfg, w, evs)
  {
    hide LeadsToRelease, Wf, RpcOk, QueueOk, Balanced;
    var e := SomeCounterIsPositive(cfg, w);
    SomethingIsOut(cfg, w, e);
    if w.refunds[e] > 0 {
      OneStepReleases(cfg, w, CreditReturnIn(e));
      evs := [CreditReturnIn(e)];
    } else if w.grants[e] > 0 {
      evs := RefusedLeadsToRelease(cfg, w, e);
    } else if w.admissions[e] > 0 {
      evs := AdmittedLeadsToRelease(cfg, w, e);
    } else {
      var p :| p in w.ledgers;
      evs := RpcLeadsToRelease(cfg, w, p);
    }
  }

  /** So a queue that is not wedged is served: if anything waits, a run without new requests ends in a pop behind a
      release. */
  lemma WaitingLeadsToRelease(cfg: Config, w: World)
    requires ConfigOk(cfg) && Inv(cfg, w) && Unwedged(w.side.queue) && !NothingQueued(w.side.queue)
    ensures exists evs :: LeadsToRelease(cfg, w, evs)
  {
    hide LeadsToRelease, Inv, NothingQueued;
    var evs := CreditsComeBack(cfg, w);
  }

  // ----- a round that stops half-way -----

  /** After a run of `evs` the RPC `p` has heard from all its sub-calls and holds two slots. */
  ghost predicate LeavesTwo(cfg: Config, w: World, evs: seq<Event>, p: nat)
    requires ConfigOk(cfg) && Inv(cfg, w)
  {
    Run(cfg, w, evs) &&
    var v := After(cfg, w, evs);
    && p in v.ledgers && p in v.side.rpcs && v.side.rpcs[p].service in cfg
    && v.ledgers[p].waiting == multiset{} && v.ledgers[p].running == {}
    && SlotsHeld(cfg[v.side.rpcs[p].service], v.ledgers[p]) == 2
  }

  lemma LeavesTwoLater(cfg: Config, w: World, ev: Event, evs: seq<Event>, p: nat)
    requires ConfigOk(cfg) && Inv(cfg, w) && Guard(cfg, w, ev)
    requires Inv(cfg, Next(cfg, w, ev)) && LeavesTwo(cfg, Next(cfg, w, ev), evs, p)
    ensures LeavesTwo(cfg, w, [ev] + evs, p)
  {
    hide Inv, Next, Guard, SlotsHeld;
    assert ([ev] + evs)[1..] == evs && ([ev] + evs)[0] == ev;
  }

  /** The mapping of an RPC, and what has happened to its sub-calls. */
  ghost predicate At(cfg: Config, w: World, p: nat, m: Mapping, l: Ledger)
  {
    p in w.ledgers && p in w.side.rpcs && w.side.rpcs[p].service in cfg && cfg[w.side.rpcs[p].service] == m && w.ledgers[p] == l
  }

  lemma TwoAreLeft(cfg: Config, w: World, p: nat, m: Mapping)
    requires ConfigOk(cfg) && Inv(cfg, w) && m.mode.Parallel? && Fan(m) >= 2
    requires At(cfg, w, p, m, Ledger(1, 1, multiset{}, {}, 1))
    ensures LeavesTwo(cfg, w, [], p)
  {
  }

  /** The only sub-call of the round is answered. */
  lemma AnswerOne(cfg: Config, w: World, p: nat, m: Mapping, b: nat) returns (evs: seq<Event>)
    requires ConfigOk(cfg) && Inv(cfg, w) && m.mode.Parallel? && Fan(m) >= 2
    requires At(cfg, w, p, m, Ledger(1, 1, multiset{}, {b}, 0))
    ensures LeavesTwo(cfg, w, evs, p)
  {
    hide Wf, RpcOk, QueueOk, Balanced, OnBranchResponse, OnEgressResponse, LeavesTwo;
    var ev := SubResponseIn(Id(p, b));
    NextKeepsInv(cfg, w, ev);
    SubResponseEffect(cfg, w, Id(p, b), w.side.rpcs[p].service);
    ServiceStaysAfterResponse(m, w.side.rpcs[p]);
    assert {b} - {b} == {};
    TwoAreLeft(cfg, Next(cfg, w, ev), p, m);
    LeavesTwoLater(cfg, w, ev, [], p);
    evs := [ev] + [];
  }

  /** It is granted. */
  lemma GrantOne(cfg: Config, w: World, p: nat, m: Mapping, ds: Name, b: nat) returns (evs: seq<Event>)
    requires ConfigOk(cfg) && Inv(cfg, w) && m.mode.Parallel? && Fan(m) >= 2
    requires At(cfg, w, p, m, Ledger(1, 0, multiset{(ds, b)}, {}, 0))
    ensures LeavesTwo(cfg, w, evs, p)
  {
    hide Wf, RpcOk, QueueOk, Balanced, OnBranchCredit, GrantStep, LeavesTwo;
    var ev := GrantIn(ds, Id(p, b));
    NextKeepsInv(cfg, w, ev);
    GrantEffect(cfg, w, ds, Id(p, b), w.side.rpcs[p].service);
    ServiceStays(m, w.side.rpcs[p], Id(p, b), ds);
    assert multiset{(ds, b)} - multiset{(ds, b)} == multiset{} && {} + {b} == {b};
    var rest := AnswerOne(cfg, Next(cfg, w, ev), p, m, b);
    LeavesTwoLater(cfg, w, ev, rest, p);
    evs := [ev] + rest;
  }

  /** A hosted call makes one sub-call of its round. */
  lemma CallOne(cfg: Config, w: World, p: nat, m: Mapping) returns (evs: seq<Event>)
    requires ConfigOk(cfg) && Inv(cfg, w) && m.mode.Parallel? && Fan(m) >= 2
    requires At(cfg, w, p, m, Ledger(0, 0, multiset{}, {}, 0))
    ensures LeavesTwo(cfg, w, evs, p)
  {
    hide Wf, RpcOk, QueueOk, Balanced, LeavesTwo;
    var ds := m.downstreams[0];
    var ev := SubCallOut(p, ds);
    NextKeepsInv(cfg, w, ev);
    assert multiset{} + multiset{(ds, w.side.counter + 1)} == multiset{(ds, w.side.counter + 1)};
    var rest := GrantOne(cfg, Next(cfg, w, ev), p, m, ds, w.side.counter + 1);
    LeavesTwoLater(cfg, w, ev, rest, p);
    evs := [ev] + rest;
  }

  /** A client uses its credit and the call is admitted. */
  lemma AdmitOne(cfg: Config, w: World, e: Name) returns (evs: seq<Event>, p: nat)
    requires ConfigOk(cfg) && Inv(cfg, w) && e in cfg && cfg[e].mode.Parallel? && Fan(cfg[e]) >= 2 && w.grants[e] > 0
    ensures LeavesTwo(cfg, w, evs, p)
  {
    hide Wf, RpcOk, QueueOk, Balanced, LeavesTwo;
    NextKeepsInv(cfg, w, CreditUsed(e));
    var v := Next(cfg, w, CreditUsed(e));
    NextKeepsInv(cfg, v, RequestIn(e));
    p := v.side.counter + 1;
    var rest := CallOne(cfg, Next(cfg, v, RequestIn(e)), p, cfg[e]);
    LeavesTwoLater(cfg, v, RequestIn(e), rest, p);
    LeavesTwoLater(cfg, w, CreditUsed(e), [RequestIn(e)] + rest, p);
    evs := [CreditUsed(e)] + ([RequestIn(e)] + rest);
  }

  /** The first Credit Request is granted at once. */
  lemma FirstRequestIsGranted(cfg: Config, w: World, e: Name, request: Request)
    requires ConfigOk(cfg) && Fresh(cfg, w) && Inv(cfg, w) && e in cfg
    requires w.side.queue.globalLimit >= 1 && w.side.queue.perLimit[e] >= 1
    ensures Next(cfg, w, CreditRequestIn(e, 0, request, None, None)).grants.Keys == cfg.Keys
    ensures Next(cfg, w, CreditRequestIn(e, 0, request, None, None)).grants[e] > 0
  {
    hide Pop, RpcsOk, QueueOk, Balanced;
    var q, beat := w.side.queue, Requested(request, e, 0, None, None);
    BeforePopIsWf(q, beat);
    var t := BeforePop(q, beat);
    assert Grantable(t, 0, e);
    PopNoneIffNothingGrantable(t);
    PopSound(t);
    var (u, r) := Pop(t);
    OnlyGrantable(q, beat, r.value.level, r.value.endpoint);
    OneGrantIsIssued(e, r.value.buffer);
  }

  lemma OnlyGrantable(q: Sched<Request>, beat: Beat<Request>, p: nat, f: Name)
    requires Wf(q) && NothingQueued(q) && Known(q, beat) && beat.Requested? && beat.limit == None && beat.globalLimit == None
    requires Wf(BeforePop(q, beat)) && Grantable(BeforePop(q, beat), p, f)
    ensures f == beat.endpoint
  {
  }

  lemma OneGrantIsIssued(e: Name, request: Request)
    ensures Issued([CreditGrant(e, request)], e) == 1
  {
    assert [CreditGrant(e, request)][1..] == [];
  }

  /** From a fresh sidecar with room for one request, a parallel service with two or more downstreams can be left
      with an RPC that holds two slots: its round stops after the first sub-call. */
  lemma HalfRoundHoldsTwo(cfg: Config, w: World, e: Name, request: Request) returns (evs: seq<Event>, p: nat)
    requires ConfigOk(cfg) && Fresh(cfg, w) && e in cfg && cfg[e].mode.Parallel? && Fan(cfg[e]) >= 2
    requires w.side.queue.globalLimit >= 1 && e in w.side.queue.perLimit && w.side.queue.perLimit[e] >= 1
    ensures Inv(cfg, w) && LeavesTwo(cfg, w, evs, p)
  {
    FreshIsInv(cfg, w);
    hide Inv, Fresh, LeavesTwo, Next;
    var ev := CreditRequestIn(e, 0, request, None, None);
    NextKeepsInv(cfg, w, ev);
    FirstRequestIsGranted(cfg, w, e, request);
    var rest: seq<Event>;
    rest, p := AdmitOne(cfg, Next(cfg, w, ev), e);
    LeavesTwoLater(cfg, w, ev, rest, p);
    evs := [ev] + rest;
  }
}
