/** What each step does to one hosted RPC: its credit fields keep up with its ledger, and its slots
    change exactly as the counter does. */
module WorldRpcs {
  import opened Names
  import opened Options
  import opened Protocol
  import opened Worlds

  // ----- a Credit Grant -----

  function CreditArrived(m: Mapping, r: Hosted, l: Ledger, ds: Name, branch: nat): Ledger
    requires m.mode.Dynamic? ==> r.chosen.Some?
  {
    l.(arrived := l.arrived + 1, waiting := l.waiting - multiset{(ds, branch)},
       running := l.running + (if Popped(m, r, ds).Some? then {branch} else {}))
  }

  lemma {:induction false} ForwardedIffPopped(m: Mapping, r: Hosted, id: Id, ds: Name)
    requires m.mode.Dynamic? ==> r.chosen.Some?
    ensures Forwarded(OnBranchCredit(m, r, id, ds).1, id) <==> Popped(m, r, ds).Some?
  {
    var out := OnBranchCredit(m, r, id, ds).1;
    if Popped(m, r, ds).Some? {
      assert out[0].SubRequest? && out[0].id == id;
    }
  }

  /** Outside dynamic fan-out the granted sub-call is the only one under its id. */
  lemma GrantPlainCalls(m: Mapping, r: Hosted, l: Ledger, counter: nat, ds: Name, branch: nat)
    requires CallsOk(m, l, counter) && (ds, branch) in l.waiting && !m.mode.Dynamic?
    ensures CallsOk(m, CreditArrived(m, r, l, ds, branch), counter)
    ensures branch !in l.running
  {
    var x := (ds, branch);
    assert x in l.waiting;
  }

  lemma {:induction false} GrantSequential(m: Mapping, r: Hosted, l: Ledger, counter: nat, ds: Name, id: Id)
    requires RpcOk(m, r, l, counter) && (ds, id.branch) in l.waiting && m.mode.Sequential?
    ensures RpcOk(m, OnBranchCredit(m, r, id, ds).0, CreditArrived(m, r, l, ds, id.branch), counter)
    ensures SlotsHeld(m, CreditArrived(m, r, l, ds, id.branch)) == SlotsHeld(m, l) - 1
  {
    hide CallsOk;
    GrantPlainCalls(m, r, l, counter, ds, id.branch);
    assert |l.waiting - multiset{(ds, id.branch)}| == |l.waiting| - 1;
    assert l.running == {};
  }

  lemma {:induction false} GrantParallel(m: Mapping, r: Hosted, l: Ledger, counter: nat, ds: Name, id: Id)
    requires RpcOk(m, r, l, counter) && (ds, id.branch) in l.waiting && m.mode.Parallel? && Fan(m) < UINT8
    ensures RpcOk(m, OnBranchCredit(m, r, id, ds).0, CreditArrived(m, r, l, ds, id.branch), counter)
    ensures SlotsHeld(m, CreditArrived(m, r, l, ds, id.branch))
         == SlotsHeld(m, l) - (if OnBranchCredit(m, r, id, ds).2 then 1 else 0)
  {
    hide CallsOk;
    GrantPlainCalls(m, r, l, counter, ds, id.branch);
    assert |l.waiting - multiset{(ds, id.branch)}| == |l.waiting| - 1;
    assert |l.running + {id.branch}| == |l.running| + 1;
  }

  /** In dynamic fan-out the sub-request leaves with the last grant, when nothing waits any more. */
  lemma GrantDynamicCalls(m: Mapping, r: Hosted, l: Ledger, counter: nat, ds: Name, branch: nat)
    requires CallsOk(m, l, counter) && (ds, branch) in l.waiting && m.mode.Dynamic? && r.chosen.Some?
    requires Popped(m, r, ds).Some? ==> |l.waiting| == 1
    ensures CallsOk(m, CreditArrived(m, r, l, ds, branch), counter)
    ensures branch !in l.running
  {
    var x := (ds, branch);
    assert x in l.waiting;
    assert |l.waiting - multiset{x}| == |l.waiting| - 1;
  }

  lemma {:induction false} GrantDynamic(m: Mapping, r: Hosted, l: Ledger, counter: nat, ds: Name, id: Id)
    requires RpcOk(m, r, l, counter) && (ds, id.branch) in l.waiting && m.mode.Dynamic? && Fan(m) < UINT8
    ensures r.chosen.Some?
    ensures RpcOk(m, OnBranchCredit(m, r, id, ds).0, CreditArrived(m, r, l, ds, id.branch), counter)
    ensures SlotsHeld(m, CreditArrived(m, r, l, ds, id.branch))
         == SlotsHeld(m, l) - (if OnBranchCredit(m, r, id, ds).2 then 1 else 0)
  {
    hide CallsOk, Returns;
    GrantDynamicCalls(m, r, l, counter, ds, id.branch);
    assert |l.waiting - multiset{(ds, id.branch)}| == |l.waiting| - 1;
    assert l.running == {};
  }

  /** A grant keeps the RPC and its ledger in step; the RPC holds one slot less exactly when the
      handler releases it. */
  lemma GrantKeepsRpc(m: Mapping, r: Hosted, l: Ledger, counter: nat, ds: Name, id: Id)
    requires RpcOk(m, r, l, counter) && (ds, id.branch) in l.waiting && Fan(m) < UINT8
    ensures m.mode.Dynamic? ==> r.chosen.Some?
    ensures RpcOk(m, OnBranchCredit(m, r, id, ds).0, CreditArrived(m, r, l, ds, id.branch), counter)
    ensures SlotsHeld(m, CreditArrived(m, r, l, ds, id.branch))
         == SlotsHeld(m, l) - (if OnBranchCredit(m, r, id, ds).2 then 1 else 0)
  {
    hide RpcOk;
    match m.mode
    case Sequential => GrantSequential(m, r, l, counter, ds, id);
    case Parallel => GrantParallel(m, r, l, counter, ds, id);
    case Dynamic => GrantDynamic(m, r, l, counter, ds, id);
  }

  /** The sub-calls still pending after a grant are those before it, less the one that was sent. */
  lemma {:induction false} GrantPending(m: Mapping, r: Hosted, l: Ledger, counter: nat, ds: Name, id: Id, s: Name, b: nat)
    requires RpcOk(m, r, l, counter) && (ds, id.branch) in l.waiting && Fan(m) < UINT8
    requires m.mode.Dynamic? ==> r.chosen.Some?
    requires m.mode.Dynamic? ==> RpcOk(m, OnBranchCredit(m, r, id, ds).0, CreditArrived(m, r, l, ds, id.branch), counter)
    ensures Pending(m, OnBranchCredit(m, r, id, ds).0, CreditArrived(m, r, l, ds, id.branch), s, b)
       <==> Pending(m, r, l, s, b) && !(Popped(m, r, ds) == Some(s) && b == id.branch)
  {
    var x := (ds, id.branch);
    assert x in l.waiting;
    if m.mode.Dynamic? {
      var rest := l.waiting - multiset{x};
      assert |rest| == |l.waiting| - 1;
      if Popped(m, r, ds).Some? {
        assert rest == multiset{};
        assert forall y :: y in l.waiting ==> y == x;
      } else {
        assert rest != multiset{};
        var y :| y in rest;
        assert y in l.waiting && y.1 == x.1;
      }
    }
  }

  // ----- a sub-call -----

  lemma {:induction false} AskedSize(names: seq<Name>, b: nat)
    ensures |AskAll(names, b)| == |names|
    ensures forall x :: x in AskAll(names, b) <==> x.0 in names && x.1 == b
    decreases |names|
  {
    if names != [] {
      var front, last := names[..|names| - 1], names[|names| - 1];
      AskedSize(front, b);
      assert names == front + [last];
      forall x ensures x in AskAll(names, b) <==> x.0 in names && x.1 == b {
        assert x in AskAll(names, b) <==> x in AskAll(front, b) || x == (last, b);
        assert x.0 in names <==> x.0 in front || x.0 == last;
      }
    }
  }

  function Called(m: Mapping, l: Ledger, ds: Name, branch: nat): Ledger {
    l.(calls := l.calls + 1, waiting := l.waiting + Asked(m, ds, branch))
  }

  ghost predicate MayCall(m: Mapping, l: Ledger, ds: Name) {
    && ds in m.downstreams
    && (match m.mode
        case Sequential => l.waiting == multiset{} && l.running == {}
        case Parallel => l.calls < Fan(m)
        case Dynamic => l.calls == 0)
  }

  lemma CallDynamic(m: Mapping, r: Hosted, l: Ledger, counter: nat, ds: Name)
    requires RpcOk(m, r, l, counter) && MayCall(m, l, ds) && m.mode.Dynamic?
    ensures RpcOk(m, r.(chosen := Some(ds)), Called(m, l, ds, counter + 1), counter + 1)
    ensures SlotsHeld(m, Called(m, l, ds, counter + 1)) == SlotsHeld(m, l)
  {
    hide CallsOk, AskAll;
    var asked := Asked(m, ds, counter + 1);
    AskedSize(m.downstreams, counter + 1);
    assert l.waiting + asked == asked;
    CallDynamicCalls(m, l, counter, ds);
  }

  lemma CallDynamicCalls(m: Mapping, l: Ledger, counter: nat, ds: Name)
    requires l.waiting == multiset{} && l.running == {} && m.mode.Dynamic?
    ensures CallsOk(m, Called(m, l, ds, counter + 1), counter + 1)
  {
    hide AskAll;
    AskedSize(m.downstreams, counter + 1);
  }

  lemma CallPlain(m: Mapping, r: Hosted, l: Ledger, counter: nat, ds: Name)
    requires RpcOk(m, r, l, counter) && MayCall(m, l, ds) && !m.mode.Dynamic?
    ensures RpcOk(m, r, Called(m, l, ds, counter + 1), counter + 1)
    ensures SlotsHeld(m, Called(m, l, ds, counter + 1)) == SlotsHeld(m, l)
  {
    assert (ds, counter + 1) !in l.waiting;
  }

  lemma CallKeepsRpc(m: Mapping, r: Hosted, l: Ledger, counter: nat, ds: Name)
    requires RpcOk(m, r, l, counter) && MayCall(m, l, ds)
    ensures RpcOk(m, if m.mode.Dynamic? then r.(chosen := Some(ds)) else r, Called(m, l, ds, counter + 1), counter + 1)
    ensures SlotsHeld(m, Called(m, l, ds, counter + 1)) == SlotsHeld(m, l)
  {
    hide RpcOk, MayCall, Called, SlotsHeld;
    if m.mode.Dynamic? {
      CallDynamic(m, r, l, counter, ds);
    } else {
      CallPlain(m, r, l, counter, ds);
    }
  }

  lemma CallPending(m: Mapping, r: Hosted, l: Ledger, counter: nat, ds: Name, s: Name, b: nat)
    requires RpcOk(m, r, l, counter) && MayCall(m, l, ds)
    ensures Pending(m, if m.mode.Dynamic? then r.(chosen := Some(ds)) else r, Called(m, l, ds, counter + 1), s, b)
       <==> Pending(m, r, l, s, b) || (s == ds && b == counter + 1)
  {
    if m.mode.Dynamic? {
      assert l.waiting == multiset{};
      AskedSize(m.downstreams, counter + 1);
      assert (ds, counter + 1) in Asked(m, ds, counter + 1);
    }
  }

  lemma NewBranchNotPending(m: Mapping, r: Hosted, l: Ledger, counter: nat, ds: Name)
    requires RpcOk(m, r, l, counter)
    ensures !Pending(m, r, l, ds, counter + 1)
  {
  }

  // ----- a sub-response -----

  function Answered(l: Ledger, branch: nat): Ledger {
    l.(running := l.running - {branch}, answered := l.answered + 1)
  }

  lemma {:induction false} AnswerKeepsRpc(m: Mapping, r: Hosted, l: Ledger, counter: nat, b: nat)
    requires RpcOk(m, r, l, counter) && b in l.running && Fan(m) < UINT8
    ensures RpcOk(m, OnBranchResponse(m, r).0, Answered(l, b), counter)
    ensures SlotsHeld(m, Answered(l, b)) == SlotsHeld(m, l) + (if OnBranchResponse(m, r).1 then 1 else 0)
    ensures forall s: Name, c: nat :: Pending(m, OnBranchResponse(m, r).0, Answered(l, b), s, c) <==> Pending(m, r, l, s, c)
  {
    assert |l.running - {b}| == |l.running| - 1;
    assert |l.running| >= 1;
  }

  // ----- the final response -----

  /** When an RPC holds exactly one slot, at any moment: a sequential one when no sub-request is out, one in a
      fan-out mode when its sub-request side has let go if and only if its response side has taken hold. */
  lemma HoldsOneIff(m: Mapping, r: Hosted, l: Ledger, counter: nat)
    requires RpcOk(m, r, l, counter)
    ensures SlotsHeld(m, l) == 1 <==>
      if m.mode.Sequential? then l.running == {} else (AllArrived(m, l) <==> l.answered > 0)
    ensures m.mode.Parallel? ==> (SlotsHeld(m, l) == 2 <==> !AllArrived(m, l) && l.answered > 0)
    ensures m.mode.Parallel? ==> (SlotsHeld(m, l) == 0 <==> AllArrived(m, l) && l.answered == 0)
  {
    assert |l.running| == 0 <==> l.running == {};
  }

  /** An RPC that has heard from all its sub-calls has none pending. It holds exactly one slot,
      which its response gives back, if and only if a parallel round was made whole or not at all:
      a partial round is never released but is reacquired, and leaks a slot. */
  lemma {:induction false} FinishedHoldsOne(m: Mapping, r: Hosted, l: Ledger, counter: nat)
    requires RpcOk(m, r, l, counter) && l.waiting == multiset{} && l.running == {}
    ensures SlotsHeld(m, l) == 1 <==> (m.mode.Parallel? ==> l.calls == 0 || l.calls == Fan(m))
    ensures SlotsHeld(m, l) != 1 ==> SlotsHeld(m, l) == 2
    ensures forall s: Name, b: nat :: !Pending(m, r, l, s, b)
  {
    HoldsOneIff(m, r, l, counter);
  }

  /** An admitted RPC never holds a negative number of slots. */
  lemma SlotsNotNegative(m: Mapping, r: Hosted, l: Ledger, counter: nat)
    requires RpcOk(m, r, l, counter)
    ensures SlotsHeld(m, l) >= 0
  {
  }
}
