/** Every step keeps the counters, the ledgers and the queue of sub-requests in agreement. */
module WorldSteps {
  import opened Names
  import opened Options
  import opened Sums
  import opened Scheduler
  import opened SchedulerProofs
  import opened Beats
  import opened Protocol
  import opened Worlds
  import opened WorldRpcs

  // ----- what one beat does to the counters -----

  function Delta(beat: Beat<Request>, e: Name): int {
    if beat.endpoint != e then 0
    else match beat
      case Requested(_, _, _, _, _) => 0
      case Released(_) => -1
      case Reacquired(_) => 1
  }

  lemma BeforePopCounts(q: Sched<Request>, beat: Beat<Request>)
    requires Wf(q) && Known(q, beat) && q.inFlight == Sum(q.perIn)
    ensures Wf(BeforePop(q, beat)) && BeforePop(q, beat).perIn.Keys == q.perIn.Keys
    ensures forall e :: e in q.perIn ==> BeforePop(q, beat).perIn[e] == q.perIn[e] + Delta(beat, e)
    ensures BeforePop(q, beat).inFlight == Sum(BeforePop(q, beat).perIn)
  {
    hide Wf;
    BeforePopIsWf(q, beat);
    if beat.Released? {
      SumUpdate(q.perIn, beat.endpoint, q.perIn[beat.endpoint] - 1);
    } else {
      SumUpdate(q.perIn, beat.endpoint, q.perIn[beat.endpoint] + 1);
    }
  }

  lemma GrantCounts(t: Sched<Request>, u: Sched<Request>, g: Grant<Request>, e: Name)
    requires Wf(t) && GrantedHead(t, u, g) && t.inFlight == Sum(t.perIn) && e in t.perIn
    ensures u.perIn.Keys == t.perIn.Keys
    ensures u.perIn[e] == t.perIn[e] + (if g.endpoint == e then 1 else 0)
    ensures u.inFlight == Sum(u.perIn)
  {
    SumUpdate(t.perIn, g.endpoint, t.perIn[g.endpoint] + 1);
  }

  /** A beat moves the counter of its endpoint, and one more per Credit Grant it sends. */
  lemma {:induction false} BeatCounts(s: Side, beat: Beat<Request>, e: Name)
    requires Wf(s.queue) && Known(s.queue, beat) && s.queue.inFlight == Sum(s.queue.perIn)
    requires e in s.queue.perIn
    ensures var (t, ms) := RunBeat(s, beat);
            && Wf(t.queue) && t.queue.perIn.Keys == s.queue.perIn.Keys
            && t.rpcs == s.rpcs && t.ppm == s.ppm && t.counter == s.counter
            && t.queue.perIn[e] == s.queue.perIn[e] + Delta(beat, e) + Issued(ms, e)
            && t.queue.inFlight == Sum(t.queue.perIn)
            && |ms| <= 1 && (forall i :: 0 <= i < |ms| ==> ms[i].CreditGrant?)
  {
    hide Wf, Pop, BeforePop, GrantedHead;
    BeforePopCounts(s.queue, beat);
    var t := BeforePop(s.queue, beat);
    StepIsWf(s.queue, beat);
    if !beat.Reacquired? {
      PopSound(t);
      if Pop(t).1.Some? {
        GrantCounts(t, Pop(t).0, Pop(t).1.value, e);
      }
    }
  }

  // ----- sums of weights -----

  /** One RPC changed. */
  lemma WeightsSet(cfg: Config, rpcs: map<nat, Hosted>, ledgers: map<nat, Ledger>, p: nat, r: Hosted, l: Ledger, e: Name)
    ensures Sum(Weights(cfg, rpcs[p := r], ledgers[p := l], e))
         == Sum(Weights(cfg, rpcs, ledgers, e))
            - (if p in ledgers && p in rpcs && rpcs[p].service == e && e in cfg then SlotsHeld(cfg[e], ledgers[p]) else 0)
            + (if r.service == e && e in cfg then SlotsHeld(cfg[e], l) else 0)
  {
    var before := Weights(cfg, rpcs, ledgers, e);
    var v := if r.service == e && e in cfg then SlotsHeld(cfg[e], l) else 0;
    SumUpdate(before, p, v);
    assert Weights(cfg, rpcs[p := r], ledgers[p := l], e) == before[p := v];
  }

  /** One RPC left. */
  lemma WeightsRemove(cfg: Config, rpcs: map<nat, Hosted>, ledgers: map<nat, Ledger>, p: nat, e: Name)
    requires p in ledgers && p in rpcs
    ensures Sum(Weights(cfg, rpcs - {p}, ledgers - {p}, e))
         == Sum(Weights(cfg, rpcs, ledgers, e))
            - (if rpcs[p].service == e && e in cfg then SlotsHeld(cfg[e], ledgers[p]) else 0)
  {
    var before := Weights(cfg, rpcs, ledgers, e);
    SumSplit(before, p);
    assert Weights(cfg, rpcs - {p}, ledgers - {p}, e) == before - {p};
  }

  // ----- the credit server's side -----

  lemma {:induction false} AfterBeatKeeps(cfg: Config, w: World, beat: Beat<Request>)
    requires ServerOk(cfg, w) && Known(w.side.queue, beat)
    ensures var v := AfterBeat(w, beat);
            && ServerOk(cfg, v) && v.side.rpcs == w.side.rpcs && v.side.ppm == w.side.ppm && v.side.counter == w.side.counter
            && v.ledgers == w.ledgers
            && forall e :: e in cfg ==> Held(v, e) == Held(w, e) + Delta(beat, e)
  {
    hide Wf, RunBeat;
    var v := AfterBeat(w, beat);
    var ms := RunBeat(w.side, beat).1;
    BeatCounts(w.side, beat, beat.endpoint);
    forall e | e in cfg
      ensures v.side.queue.perIn[e] == w.side.queue.perIn[e] + Delta(beat, e) + Issued(ms, e)
    {
      BeatCounts(w.side, beat, e);
    }
  }

  // ----- one RPC changes, everything else stays -----

  lemma RpcOkLater(m: Mapping, r: Hosted, l: Ledger, counter: nat, later: nat)
    requires RpcOk(m, r, l, counter) && counter <= later
    ensures RpcOk(m, r, l, later)
  {
  }

  /** `v` is `w` with RPC `p` now `r` with ledger `l`, holding `d` more slots. */
  ghost predicate ChangesOne(cfg: Config, w: World, v: World, p: nat, r: Hosted, l: Ledger, d: int)
    requires ServerOk(cfg, w) && ServerOk(cfg, v) && RpcsOk(cfg, w)
  {
    && p in w.ledgers && r.service == w.side.rpcs[p].service
    && v.side.rpcs == w.side.rpcs[p := r] && v.ledgers == w.ledgers[p := l]
    && w.side.counter <= v.side.counter
    && var m := cfg[r.service];
       && RpcOk(m, r, l, v.side.counter)
       && SlotsHeld(m, l) == SlotsHeld(m, w.ledgers[p]) + d
       && (forall e :: e in cfg ==> Held(v, e) == Held(w, e) + (if e == r.service then d else 0))
       && (forall ds: Name, id: Id :: (ds, id) in v.side.ppm <==>
            if id.parent == p then Pending(m, r, l, ds, id.branch) else (ds, id) in w.side.ppm)
  }

  lemma {:induction false} ChangeKeepsRpcs(cfg: Config, w: World, v: World, p: nat, r: Hosted, l: Ledger, d: int)
    requires ServerOk(cfg, w) && ServerOk(cfg, v) && RpcsOk(cfg, w)
    requires ChangesOne(cfg, w, v, p, r, l, d)
    ensures RpcsOk(cfg, v)
  {
    hide Wf, RpcOk, ServerOk, Held;
    forall q | q in v.ledgers
      ensures RpcOk(cfg[v.side.rpcs[q].service], v.side.rpcs[q], v.ledgers[q], v.side.counter)
    {
      if q != p {
        RpcOkLater(cfg[w.side.rpcs[q].service], w.side.rpcs[q], w.ledgers[q], w.side.counter, v.side.counter);
      }
    }
  }

  lemma {:induction false} ChangeKeepsBalance(cfg: Config, w: World, v: World, p: nat, r: Hosted, l: Ledger, d: int)
    requires ServerOk(cfg, w) && ServerOk(cfg, v) && RpcsOk(cfg, w) && Balanced(cfg, w)
    requires ChangesOne(cfg, w, v, p, r, l, d)
    ensures Balanced(cfg, v)
  {
    hide Wf, RpcOk, Pending;
    forall e | e in cfg
      ensures Held(v, e) == Sum(Weights(cfg, v.side.rpcs, v.ledgers, e))
    {
      WeightsSet(cfg, w.side.rpcs, w.ledgers, p, r, l, e);
    }
  }

  lemma {:induction false} ChangeKeepsQueue(cfg: Config, w: World, v: World, p: nat, r: Hosted, l: Ledger, d: int)
    requires ServerOk(cfg, w) && ServerOk(cfg, v) && RpcsOk(cfg, w) && RpcsOk(cfg, v) && QueueOk(cfg, w)
    requires ChangesOne(cfg, w, v, p, r, l, d)
    ensures QueueOk(cfg, v)
  {
    hide Wf, RpcOk, Pending, ServerOk, Held;
    forall ds: Name, id: Id
      ensures (ds, id) in v.side.ppm <==>
        && id.parent in v.ledgers
        && Pending(cfg[v.side.rpcs[id.parent].service], v.side.rpcs[id.parent], v.ledgers[id.parent], ds, id.branch)
    {
    }
  }

  lemma ChangeKeepsInv(cfg: Config, w: World, v: World, p: nat, r: Hosted, l: Ledger, d: int)
    requires Inv(cfg, w) && ServerOk(cfg, v) && ChangesOne(cfg, w, v, p, r, l, d)
    ensures Inv(cfg, v)
  {
    hide ServerOk, RpcsOk, QueueOk, Balanced, ChangesOne;
    ChangeKeepsRpcs(cfg, w, v, p, r, l, d);
    ChangeKeepsBalance(cfg, w, v, p, r, l, d);
    ChangeKeepsQueue(cfg, w, v, p, r, l, d);
  }

  // ----- the events -----

  /** The credit server alone: requests, returns, and what clients do with their grants. */
  lemma {:induction false} ServerStepKeepsInv(cfg: Config, w: World, v: World)
    requires Inv(cfg, w) && ServerOk(cfg, v)
    requires v.side.rpcs == w.side.rpcs && v.ledgers == w.ledgers && v.side.ppm == w.side.ppm && v.side.counter == w.side.counter
    requires forall e :: e in cfg ==> Held(v, e) == Held(w, e)
    ensures Inv(cfg, v)
  {
  }

  lemma {:induction false} SubCallKeepsInv(cfg: Config, w: World, parent: nat, ds: Name)
    requires ConfigOk(cfg) && Inv(cfg, w) && Guard(cfg, w, SubCallOut(parent, ds))
    ensures Inv(cfg, SubCallStep(cfg, w, parent, ds))
  {
    hide Wf, RpcOk, Balanced;
    var v := SubCallStep(cfg, w, parent, ds);
    var r, l, c := w.side.rpcs[parent], w.ledgers[parent], w.side.counter;
    var m := cfg[r.service];
    assert RpcOk(m, r, l, c);
    var r' := if m.mode.Dynamic? then r.(chosen := Some(ds)) else r;
    var l' := Called(m, l, ds, c + 1);
    CallKeepsRpc(m, r, l, c, ds);
    assert w.side.rpcs[parent := r] == w.side.rpcs;
    assert ServerOk(cfg, v);
    forall s: Name, id: Id
      ensures (s, id) in v.side.ppm <==>
        if id.parent == parent then Pending(m, r', l', s, id.branch) else (s, id) in w.side.ppm
    {
      CallPending(m, r, l, c, ds, s, id.branch);
    }
    ChangeKeepsInv(cfg, w, v, parent, r', l', 0);
  }

  lemma {:induction false} MessagesSplit(out: seq<Message>, gs: seq<Message>, e: Name, id: Id)
    requires forall i :: 0 <= i < |out| ==> !out[i].CreditGrant?
    requires forall i :: 0 <= i < |gs| ==> gs[i].CreditGrant?
    ensures Issued(out + gs, e) == Issued(gs, e)
    ensures Forwarded(out + gs, id) <==> Forwarded(out, id)
    decreases |out|
  {
    if out == [] {
      assert out + gs == gs;
    } else {
      assert (out + gs)[1..] == out[1..] + gs;
      MessagesSplit(out[1..], gs, e, id);
    }
    if Forwarded(out, id) {
      var i :| 0 <= i < |out| && out[i].SubRequest? && out[i].id == id;
      assert (out + gs)[i] == out[i];
    }
  }

  lemma BranchMessages(m: Mapping, r: Hosted, id: Id, ds: Name)
    requires m.mode.Dynamic? ==> r.chosen.Some?
    ensures forall i :: 0 <= i < |OnBranchCredit(m, r, id, ds).1| ==> !OnBranchCredit(m, r, id, ds).1[i].CreditGrant?
  {
  }

  /** What `fanout_req_management` does to counters, queue and messages. */
  lemma {:induction false} GrantEffect(cfg: Config, w: World, ds: Name, id: Id, e: Name)
    requires Inv(cfg, w) && Guard(cfg, w, GrantIn(ds, id)) && e in cfg
    ensures id.parent in w.side.rpcs && w.side.rpcs[id.parent].service in cfg
    ensures var r := w.side.rpcs[id.parent];
            var m := cfg[r.service];
            var v := GrantStep(cfg, w, ds, id);
            && (m.mode.Dynamic? ==> r.chosen.Some?)
            && v.side.counter == w.side.counter
            && v.side.rpcs == w.side.rpcs[id.parent := OnBranchCredit(m, r, id, ds).0]
            && v.ledgers == w.ledgers[id.parent := CreditArrived(m, r, w.ledgers[id.parent], ds, id.branch)]
            && v.side.ppm == (if Popped(m, r, ds).Some? then w.side.ppm - {(Popped(m, r, ds).value, id)} else w.side.ppm)
            && v.grants.Keys == w.grants.Keys && v.admissions == w.admissions && v.refunds == w.refunds
            && Wf(v.side.queue) && v.side.queue.perIn.Keys == w.side.queue.perIn.Keys
            && v.side.queue.inFlight == Sum(v.side.queue.perIn)
            && v.grants[e] >= w.grants[e]
            && v.side.queue.perIn[e] - v.grants[e]
               == w.side.queue.perIn[e] - w.grants[e] - (if OnBranchCredit(m, r, id, ds).2 && e == r.service then 1 else 0)
  {
    hide Wf, RpcOk, QueueOk, Balanced, Pending, RunBeat;
    GrantPossible(cfg, w, ds, id);
    var r := w.side.rpcs[id.parent];
    var m := cfg[r.service];
    var (r', out, release) := OnBranchCredit(m, r, id, ds);
    ForwardedIffPopped(m, r, id, ds);
    BranchMessages(m, r, id, ds);
    var popped := Popped(m, r, ds);
    var t := w.side.(rpcs := w.side.rpcs[id.parent := r'],
                     ppm := if popped.Some? then w.side.ppm - {(popped.value, id)} else w.side.ppm);
    if release {
      var beat := Released(r.service);
      BeatCounts(t, beat, e);
      MessagesSplit(out, RunBeat(t, beat).1, e, id);
    } else {
      MessagesSplit(out, [], e, id);
      assert out + [] == out;
    }
  }

  lemma {:induction false} GrantKeepsInv(cfg: Config, w: World, ds: Name, id: Id)
    requires ConfigOk(cfg) && Inv(cfg, w) && Guard(cfg, w, GrantIn(ds, id))
    ensures Inv(cfg, GrantStep(cfg, w, ds, id))
  {
    hide Wf, RpcOk, Balanced, GrantStep, OnBranchCredit, SlotsHeld, Popped;
    var v := GrantStep(cfg, w, ds, id);
    var r, l, c := w.side.rpcs[id.parent], w.ledgers[id.parent], w.side.counter;
    GrantEffect(cfg, w, ds, id, r.service);
    var m := cfg[r.service];
    forall e | e in cfg
      ensures v.grants[e] >= w.grants[e]
      ensures v.side.queue.perIn[e] - v.grants[e]
              == w.side.queue.perIn[e] - w.grants[e] - (if OnBranchCredit(m, r, id, ds).2 && e == r.service then 1 else 0)
    {
      GrantEffect(cfg, w, ds, id, e);
    }
    assert RpcOk(m, r, l, c);
    GrantKeepsRpc(m, r, l, c, ds, id);
    var r', l' := OnBranchCredit(m, r, id, ds).0, CreditArrived(m, r, l, ds, id.branch);
    forall s: Name, i: Id
      ensures (s, i) in v.side.ppm <==>
        if i.parent == id.parent then Pending(m, r', l', s, i.branch) else (s, i) in w.side.ppm
    {
      GrantPending(m, r, l, c, ds, id, s, i.branch);
    }
    ServiceStays(m, r, id, ds);
    ChangeKeepsInv(cfg, w, v, id.parent, r', l', if OnBranchCredit(m, r, id, ds).2 then -1 else 0);
  }

  lemma ServiceStays(m: Mapping, r: Hosted, id: Id, ds: Name)
    requires m.mode.Dynamic? ==> r.chosen.Some?
    ensures OnBranchCredit(m, r, id, ds).0.service == r.service
  {
  }

  /** What `fanout_res_credit_management` does to the counters. */
  lemma {:induction false} SubResponseEffect(cfg: Config, w: World, id: Id, e: Name)
    requires ServerOk(cfg, w) && RpcsOk(cfg, w) && Guard(cfg, w, SubResponseIn(id)) && e in cfg
    ensures w.side.rpcs[id.parent].service in cfg
    ensures var r := w.side.rpcs[id.parent];
            var (r', again) := OnBranchResponse(cfg[r.service], r);
            var v := SubResponseStep(cfg, w, id);
            && v.side.counter == w.side.counter && v.side.ppm == w.side.ppm
            && v.side.rpcs == w.side.rpcs[id.parent := r']
            && Wf(v.side.queue) && v.side.queue.perIn.Keys == w.side.queue.perIn.Keys
            && v.side.queue.inFlight == Sum(v.side.queue.perIn)
            && v.side.queue.perIn[e] == w.side.queue.perIn[e] + (if again && e == r.service then 1 else 0)
  {
    hide Wf, RpcOk, RunBeat, OnBranchResponse;
    var r := w.side.rpcs[id.parent];
    var (r', again) := OnBranchResponse(cfg[r.service], r);
    if again {
      var t := w.side.(rpcs := w.side.rpcs[id.parent := r']);
      BeatCounts(t, Reacquired(r.service), e);
      ReacquireSendsNothing(t, r.service, e);
    }
  }

  lemma ReacquireSendsNothing(s: Side, service: Name, e: Name)
    requires Wf(s.queue) && service in s.queue.perIn
    ensures Issued(RunBeat(s, Reacquired(service)).1, e) == 0
  {
  }

  lemma {:induction false} SubResponseKeepsInv(cfg: Config, w: World, id: Id)
    requires ConfigOk(cfg) && Inv(cfg, w) && Guard(cfg, w, SubResponseIn(id))
    ensures Inv(cfg, SubResponseStep(cfg, w, id))
  {
    hide Wf, RpcOk, Balanced, Pending, SlotsHeld, OnBranchResponse, OnEgressResponse;
    var v := SubResponseStep(cfg, w, id);
    var r, l, c := w.side.rpcs[id.parent], w.ledgers[id.parent], w.side.counter;
    var m := cfg[r.service];
    assert RpcOk(m, r, l, c);
    AnswerKeepsRpc(m, r, l, c, id.branch);
    SubResponseEffect(cfg, w, id, r.service);
    forall e | e in cfg
      ensures v.side.queue.perIn[e] == w.side.queue.perIn[e] + (if OnBranchResponse(m, r).1 && e == r.service then 1 else 0)
    {
      SubResponseEffect(cfg, w, id, e);
    }
    ServiceStaysAfterResponse(m, r);
    ChangeKeepsInv(cfg, w, v, id.parent, OnBranchResponse(m, r).0, Answered(l, id.branch),
                   if OnBranchResponse(m, r).1 then 1 else 0);
  }

  lemma ServiceStaysAfterResponse(m: Mapping, r: Hosted)
    ensures OnBranchResponse(m, r).0.service == r.service
  {
  }

  /** `v` is `w` with one more RPC, just admitted. */
  ghost predicate AddsOne(cfg: Config, w: World, v: World, e: Name)
    requires ServerOk(cfg, w) && ServerOk(cfg, v)
  {
    && e in cfg && v.side.counter == w.side.counter + 1 && v.side.ppm == w.side.ppm
    && v.side.rpcs == w.side.rpcs[v.side.counter := Hosted(e, 0, 0, [], None)]
    && v.ledgers == w.ledgers[v.side.counter := Ledger(0, 0, multiset{}, {}, 0)]
    && forall x :: x in cfg ==> Held(v, x) == Held(w, x) + (if x == e then 1 else 0)
  }

  lemma {:induction false} AddKeepsRpcs(cfg: Config, w: World, v: World, e: Name)
    requires ServerOk(cfg, w) && ServerOk(cfg, v) && RpcsOk(cfg, w) && AddsOne(cfg, w, v, e)
    ensures RpcsOk(cfg, v) && v.side.counter !in w.ledgers
  {
    hide ServerOk, Held, RpcOk;
    NewRpcOk(cfg[e], e, v.side.counter);
    forall q | q in w.ledgers
      ensures q < v.side.counter
      ensures RpcOk(cfg[w.side.rpcs[q].service], w.side.rpcs[q], w.ledgers[q], v.side.counter)
    {
      RpcOkLater(cfg[w.side.rpcs[q].service], w.side.rpcs[q], w.ledgers[q], w.side.counter, v.side.counter);
    }
  }

  lemma NewRpcOk(m: Mapping, e: Name, counter: nat)
    ensures RpcOk(m, Hosted(e, 0, 0, [], None), Ledger(0, 0, multiset{}, {}, 0), counter)
    ensures SlotsHeld(m, Ledger(0, 0, multiset{}, {}, 0)) == 1
    ensures forall ds: Name, b: nat :: !Pending(m, Hosted(e, 0, 0, [], None), Ledger(0, 0, multiset{}, {}, 0), ds, b)
  {
  }

  lemma {:induction false} AddKeepsBalance(cfg: Config, w: World, v: World, e: Name)
    requires ServerOk(cfg, w) && ServerOk(cfg, v) && RpcsOk(cfg, w) && Balanced(cfg, w)
    requires AddsOne(cfg, w, v, e) && v.side.counter !in w.ledgers
    ensures Balanced(cfg, v)
  {
    hide Wf, RpcOk, Pending, SlotsHeld;
    NewRpcOk(cfg[e], e, v.side.counter);
    forall x | x in cfg
      ensures Held(v, x) == Sum(Weights(cfg, v.side.rpcs, v.ledgers, x))
    {
      WeightsSet(cfg, w.side.rpcs, w.ledgers, v.side.counter, v.side.rpcs[v.side.counter], v.ledgers[v.side.counter], x);
    }
  }

  lemma {:induction false} AddKeepsQueue(cfg: Config, w: World, v: World, e: Name)
    requires ServerOk(cfg, w) && ServerOk(cfg, v) && RpcsOk(cfg, w) && RpcsOk(cfg, v) && QueueOk(cfg, w)
    requires AddsOne(cfg, w, v, e) && v.side.counter !in w.ledgers
    ensures QueueOk(cfg, v)
  {
    hide Wf, ServerOk, Held, RpcOk, Pending;
    NewRpcOk(cfg[e], e, v.side.counter);
  }

  lemma AddKeepsInv(cfg: Config, w: World, v: World, e: Name)
    requires Inv(cfg, w) && ServerOk(cfg, v) && AddsOne(cfg, w, v, e)
    ensures Inv(cfg, v)
  {
    hide ServerOk, RpcsOk, QueueOk, Balanced, AddsOne;
    AddKeepsRpcs(cfg, w, v, e);
    AddKeepsBalance(cfg, w, v, e);
    AddKeepsQueue(cfg, w, v, e);
  }

  lemma {:induction false} AdmitKeepsInv(cfg: Config, w: World, e: Name)
    requires Inv(cfg, w) && Guard(cfg, w, RequestIn(e))
    ensures Inv(cfg, Next(cfg, w, RequestIn(e)))
  {
    hide Wf, RpcsOk, QueueOk, Balanced;
    AddKeepsInv(cfg, w, Next(cfg, w, RequestIn(e)), e);
  }

  lemma {:induction false} ResponseEffect(cfg: Config, w: World, parent: nat, e: Name)
    requires ServerOk(cfg, w) && RpcsOk(cfg, w) && Guard(cfg, w, ResponseOut(parent)) && e in cfg
    ensures var v := ResponseStep(cfg, w, parent);
            && v.side.counter == w.side.counter && v.side.ppm == w.side.ppm
            && v.side.rpcs == w.side.rpcs - {parent} && v.ledgers == w.ledgers - {parent}
            && v.grants.Keys == w.grants.Keys && v.admissions == w.admissions && v.refunds == w.refunds
            && Wf(v.side.queue) && v.side.queue.perIn.Keys == w.side.queue.perIn.Keys
            && v.side.queue.inFlight == Sum(v.side.queue.perIn)
            && v.grants[e] >= w.grants[e]
            && v.side.queue.perIn[e] - v.grants[e]
               == w.side.queue.perIn[e] - w.grants[e] - (if e == w.side.rpcs[parent].service then 1 else 0)
  {
    hide Wf, RpcOk, RunBeat;
    BeatCounts(w.side, Released(w.side.rpcs[parent].service), e);
  }

  /** `v` is `w` without RPC `p`, which held one slot and had nothing pending. */
  ghost predicate DropsOne(cfg: Config, w: World, v: World, p: nat)
    requires ServerOk(cfg, w) && ServerOk(cfg, v) && RpcsOk(cfg, w)
  {
    && p in w.ledgers && v.side.counter == w.side.counter && v.side.ppm == w.side.ppm
    && v.side.rpcs == w.side.rpcs - {p} && v.ledgers == w.ledgers - {p}
    && var r, m := w.side.rpcs[p], cfg[w.side.rpcs[p].service];
       && SlotsHeld(m, w.ledgers[p]) == 1
       && (forall s: Name, b: nat :: !Pending(m, r, w.ledgers[p], s, b))
       && forall e :: e in cfg ==> Held(v, e) == Held(w, e) - (if e == r.service then 1 else 0)
  }

  lemma DropBalanceAt(cfg: Config, w: World, v: World, p: nat, e: Name)
    requires ServerOk(cfg, w) && ServerOk(cfg, v) && RpcsOk(cfg, w) && DropsOne(cfg, w, v, p)
    requires e in cfg && Held(w, e) == Sum(Weights(cfg, w.side.rpcs, w.ledgers, e))
    ensures Held(v, e) == Sum(Weights(cfg, v.side.rpcs, v.ledgers, e))
  {
    hide Wf, RpcOk, Pending, SlotsHeld, Weights, Held;
    WeightsRemove(cfg, w.side.rpcs, w.ledgers, p, e);
  }

  lemma {:induction false} DropKeepsBalance(cfg: Config, w: World, v: World, p: nat)
    requires ServerOk(cfg, w) && ServerOk(cfg, v) && RpcsOk(cfg, w) && Balanced(cfg, w) && DropsOne(cfg, w, v, p)
    ensures Balanced(cfg, v)
  {
    hide RpcsOk, DropsOne, Weights;
    forall e | e in cfg
      ensures Held(v, e) == Sum(Weights(cfg, v.side.rpcs, v.ledgers, e))
    {
      DropBalanceAt(cfg, w, v, p, e);
    }
  }

  lemma {:induction false} DropKeepsQueue(cfg: Config, w: World, v: World, p: nat)
    requires ServerOk(cfg, w) && ServerOk(cfg, v) && RpcsOk(cfg, w) && QueueOk(cfg, w) && DropsOne(cfg, w, v, p)
    ensures RpcsOk(cfg, v) && QueueOk(cfg, v)
  {
    hide Wf, ServerOk, Held, RpcOk, Pending, SlotsHeld;
    assert RpcsOk(cfg, v);
    forall ds: Name, id: Id
      ensures (ds, id) in w.side.ppm ==> id.parent != p
    {
    }
  }

  lemma DropKeepsInv(cfg: Config, w: World, v: World, p: nat)
    requires Inv(cfg, w) && ServerOk(cfg, v) && DropsOne(cfg, w, v, p)
    ensures Inv(cfg, v)
  {
    hide ServerOk, RpcsOk, QueueOk, Balanced, DropsOne;
    DropKeepsBalance(cfg, w, v, p);
    DropKeepsQueue(cfg, w, v, p);
  }

  lemma {:induction false} ResponseKeepsInv(cfg: Config, w: World, parent: nat)
    requires Inv(cfg, w) && Guard(cfg, w, ResponseOut(parent))
    ensures Inv(cfg, ResponseStep(cfg, w, parent))
  {
    hide Wf, RpcOk, SlotsHeld, Pending, ResponseStep, Balanced, QueueOk;
    var v := ResponseStep(cfg, w, parent);
    var r, l := w.side.rpcs[parent], w.ledgers[parent];
    assert RpcOk(cfg[r.service], r, l, w.side.counter);
    FinishedHoldsOne(cfg[r.service], r, l, w.side.counter);
    ResponseEffect(cfg, w, parent, r.service);
    forall e | e in cfg
      ensures v.grants[e] >= w.grants[e]
      ensures v.side.queue.perIn[e] - v.grants[e]
              == w.side.queue.perIn[e] - w.grants[e] - (if e == r.service then 1 else 0)
    {
      ResponseEffect(cfg, w, parent, e);
    }
    DropKeepsInv(cfg, w, v, parent);
  }

  lemma CreditRequestKeepsInv(cfg: Config, w: World, beat: Beat<Request>)
    requires Inv(cfg, w) && Known(w.side.queue, beat) && beat.Requested?
    ensures Inv(cfg, AfterBeat(w, beat))
  {
    hide Wf, RpcsOk, QueueOk, Balanced, AfterBeat, Held;
    AfterBeatKeeps(cfg, w, beat);
    ServerStepKeepsInv(cfg, w, AfterBeat(w, beat));
  }

  /** The Credit Return leaves the wire. */
  lemma ReturnTaken(cfg: Config, w: World, e: Name)
    requires ServerOk(cfg, w) && Guard(cfg, w, CreditReturnIn(e))
    ensures var u := w.(refunds := w.refunds[e := w.refunds[e] - 1]);
            && ServerOk(cfg, u) && Known(u.side.queue, Released(e))
            && forall x :: x in cfg ==> Held(u, x) == Held(w, x) + (if x == e then 1 else 0)
  {
    hide Wf;
    var u := w.(refunds := w.refunds[e := w.refunds[e] - 1]);
    assert u.refunds.Keys == w.refunds.Keys;
  }

  lemma CreditReturnKeepsInv(cfg: Config, w: World, e: Name)
    requires Inv(cfg, w) && Guard(cfg, w, CreditReturnIn(e))
    ensures Inv(cfg, Next(cfg, w, CreditReturnIn(e)))
  {
    hide RpcsOk, QueueOk, Balanced, AfterBeat, Held, Guard, Wf;
    ReturnTaken(cfg, w, e);
    var u := w.(refunds := w.refunds[e := w.refunds[e] - 1]);
    AfterBeatKeeps(cfg, u, Released(e));
    ServerStepKeepsInv(cfg, w, AfterBeat(u, Released(e)));
  }

  lemma CreditMovedKeepsInv(cfg: Config, w: World, ev: Event)
    requires Inv(cfg, w) && Guard(cfg, w, ev) && (ev.CreditUsed? || ev.CreditRefused?)
    ensures Inv(cfg, Next(cfg, w, ev))
  {
    hide Wf, RpcsOk, QueueOk, Balanced;
    ServerStepKeepsInv(cfg, w, Next(cfg, w, ev));
  }

  /** Every step of the world keeps the invariant. */
  lemma NextKeepsInv(cfg: Config, w: World, ev: Event)
    requires ConfigOk(cfg) && Inv(cfg, w) && Guard(cfg, w, ev)
    ensures Inv(cfg, Next(cfg, w, ev))
  {
    hide Inv, Guard, SubCallStep, GrantStep, SubResponseStep, ResponseStep, AfterBeat;
    match ev
    case SubCallOut(parent, ds) => SubCallKeepsInv(cfg, w, parent, ds);
    case GrantIn(ds, id) => GrantKeepsInv(cfg, w, ds, id);
    case SubResponseIn(id) => SubResponseKeepsInv(cfg, w, id);
    case ResponseOut(parent) => ResponseKeepsInv(cfg, w, parent);
    case RequestIn(e) => AdmitKeepsInv(cfg, w, e);
    case CreditRequestIn(e, p, request, limit, globalLimit) =>
      RequestKnown(cfg, w, ev);
      CreditRequestKeepsInv(cfg, w, Requested(request, e, p, limit, globalLimit));
    case CreditReturnIn(e) => CreditReturnKeepsInv(cfg, w, e);
    case _ => CreditMovedKeepsInv(cfg, w, ev);
  }

  lemma RequestKnown(cfg: Config, w: World, ev: Event)
    requires Inv(cfg, w) && Guard(cfg, w, ev) && ev.CreditRequestIn?
    ensures Known(w.side.queue, Requested(ev.request, ev.endpoint, ev.level, ev.limit, ev.globalLimit))
  {
  }

  /** The id of a new sub-request is not in the queue yet, so putting it there is never fatal. */
  lemma SubCallIsFresh(cfg: Config, w: World, parent: nat, ds: Name)
    requires Inv(cfg, w) && parent in w.ledgers
    ensures (ds, Id(parent, w.side.counter + 1)) !in w.side.ppm
  {
    hide Wf, Balanced, SlotsHeld, RpcOk, Pending;
    var r, l := w.side.rpcs[parent], w.ledgers[parent];
    assert RpcOk(cfg[r.service], r, l, w.side.counter);
    NewBranchNotPending(cfg[r.service], r, l, w.side.counter, ds);
  }
}
