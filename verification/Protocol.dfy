/** The RLP handlers of one non-ingress sidecar, as functions on its state. A handler runs on one
    thread from start to end, so one handler is one step. */
module Protocol {
  import opened Names
  import opened Options
  import opened Scheduler
  import opened Beats

  datatype Mode = Sequential | Parallel | Dynamic

  /** How a hosted service calls its downstreams. */
  datatype Mapping = Mapping(mode: Mode, downstreams: seq<Name>)

  /** The id of a sub-request: the hosted RPC that made it, and a branch number. */
  datatype Id = Id(parent: nat, branch: nat)

  /** A queued Credit Request: where its grant goes, and the id it carries. */
  datatype Request = Request(sender: nat, id: Id)

  datatype Message =
    | CreditGrant(endpoint: Name, request: Request)
    | CreditRequest(downstream: Name, id: Id)
    | SubRequest(downstream: Name, id: Id)
    | CreditReturn(downstream: Name, id: Id)

  /** The credit fields of an admitted RPC: both counters are 8 bits wide. */
  datatype Hosted = Hosted(service: Name, req: nat, res: nat, held: seq<Name>, chosen: Option<Name>)

  datatype SideOf<Q, R, P> = Side(queue: Q, rpcs: R, ppm: P, counter: nat)

  /** The credit server's queue, the admitted RPCs by id, the sub-requests that wait for credit,
      and the id counter. */
  type Side = SideOf<Sched<Request>, map<nat, Hosted>, set<(Name, Id)>>

  type Config = map<Name, Mapping>

  const UINT8: nat := 256

  // ----- one admitted RPC -----

  /** What a Credit Grant from `ds` does to the RPC that asked for it: its new credit fields, the
      messages that leave, and whether the RPC gives its own slot back. */
  function OnBranchCredit(m: Mapping, r: Hosted, id: Id, ds: Name): (Hosted, seq<Message>, bool)
    requires m.mode.Dynamic? ==> r.chosen.Some?
  {
    match m.mode
    case Parallel =>
      var req := (r.req + 1) % UINT8;
      (r.(req := req), [SubRequest(ds, id)], req == |m.downstreams|)
    case Dynamic =>
      var req := (r.req + 1) % UINT8;
      var held := if r.chosen.value != ds then r.held + [ds] else r.held;
      if req != |m.downstreams| then (r.(req := req, held := held), [], false)
      else (r.(req := req, held := []), [SubRequest(r.chosen.value, id)] + Returns(held, id), true)
    case Sequential =>
      (r, [SubRequest(ds, id)], true)
  }

  function Returns(services: seq<Name>, id: Id): (ms: seq<Message>)
    ensures |ms| == |services|
    ensures forall i :: 0 <= i < |ms| ==> ms[i] == CreditReturn(services[i], id)
  {
    if services == [] then [] else [CreditReturn(services[0], id)] + Returns(services[1..], id)
  }

  /** What a sub-response does: its new credit fields, and whether the RPC takes its slot again. */
  function OnBranchResponse(m: Mapping, r: Hosted): (Hosted, bool) {
    if m.mode.Parallel? then
      var res := (r.res + 1) % UINT8;
      (r.(res := res), res <= 1)
    else (r, true)
  }

  // ----- the handlers -----

  /** Run one beat of the credit queue; a grant it makes leaves as a message. */
  function RunBeat(s: Side, beat: Beat<Request>): (Side, seq<Message>)
    requires Wf(s.queue) && Known(s.queue, beat)
  {
    var (q, g) := Step(s.queue, beat);
    (s.(queue := q), if g.Some? then [CreditGrant(g.value.endpoint, g.value.buffer)] else [])
  }

  /** `route` of a request into the hosted service: a new RPC with a new id. */
  function OnAdmit(s: Side, e: Name): Side {
    s.(rpcs := s.rpcs[s.counter + 1 := Hosted(e, 0, 0, [], None)], counter := s.counter + 1)
  }

  function CreditRequests(services: seq<Name>, id: Id): seq<Message> {
    if services == [] then [] else [CreditRequest(services[0], id)] + CreditRequests(services[1..], id)
  }

  /** `protocol_client(false)` for one sub-request of RPC `parent` to `ds`. */
  function OnSubCall(cfg: Config, s: Side, parent: nat, ds: Name): (Side, seq<Message>)
    requires parent in s.rpcs && s.rpcs[parent].service in cfg
  {
    var id := Id(parent, s.counter + 1);
    var r := s.rpcs[parent];
    var m := cfg[r.service];
    var t := s.(ppm := s.ppm + {(ds, id)}, counter := s.counter + 1);
    if m.mode.Dynamic? then
      (t.(rpcs := s.rpcs[parent := r.(chosen := Some(ds))]), CreditRequests(m.downstreams, id))
    else
      (t, [CreditRequest(ds, id)])
  }

  /** The sub-request that a grant from `ds` lets out of the queue, if it is the last one needed. */
  function Popped(m: Mapping, r: Hosted, ds: Name): Option<Name>
    requires m.mode.Dynamic? ==> r.chosen.Some?
  {
    if !m.mode.Dynamic? then Some(ds)
    else if (r.req + 1) % UINT8 == |m.downstreams| then r.chosen
    else None
  }

  /** `fanout_req_management`: a Credit Grant from `ds` for sub-request `id`. A grant that names no
      known RPC or no waiting sub-request is fatal. */
  function OnGrant(cfg: Config, s: Side, ds: Name, id: Id): (Side, seq<Message>)
    requires Wf(s.queue) && id.parent in s.rpcs
    requires var r := s.rpcs[id.parent];
             && r.service in cfg && r.service in s.queue.perIn
             && (cfg[r.service].mode.Dynamic? ==> r.chosen.Some?)
             && (Popped(cfg[r.service], r, ds).Some? ==> (Popped(cfg[r.service], r, ds).value, id) in s.ppm)
  {
    var r := s.rpcs[id.parent];
    var (r', out, release) := OnBranchCredit(cfg[r.service], r, id, ds);
    var popped := Popped(cfg[r.service], r, ds);
    var t := s.(rpcs := s.rpcs[id.parent := r'],
                ppm := if popped.Some? then s.ppm - {(popped.value, id)} else s.ppm);
    if release then
      var (u, grants) := RunBeat(t, Released(r.service));
      (u, out + grants)
    else (t, out)
  }

  /** `fanout_res_credit_management`: the response of sub-request `id`. */
  function OnEgressResponse(cfg: Config, s: Side, id: Id): Side
    requires Wf(s.queue) && id.parent in s.rpcs
    requires s.rpcs[id.parent].service in cfg && s.rpcs[id.parent].service in s.queue.perIn
  {
    var r := s.rpcs[id.parent];
    var (r', again) := OnBranchResponse(cfg[r.service], r);
    var t := s.(rpcs := s.rpcs[id.parent := r']);
    if again then RunBeat(t, Reacquired(r.service)).0 else t
  }

  /** The hosted service answers RPC `parent`. */
  function OnIngressResponse(s: Side, parent: nat): (Side, seq<Message>)
    requires Wf(s.queue) && parent in s.rpcs && s.rpcs[parent].service in s.queue.perIn
  {
    var (t, grants) := RunBeat(s, Released(s.rpcs[parent].service));
    (t.(rpcs := t.rpcs - {parent}), grants)
  }

  // ----- dynamic fan-out is exact -----

  /** The grants of `order` arrive one after the other: the RPC's credit fields, the messages that
      left, and how often the RPC gave its own slot back. */
  function Collect(m: Mapping, r: Hosted, id: Id, order: seq<Name>): (Hosted, seq<Message>, nat)
    requires m.mode.Dynamic? && r.chosen.Some?
    ensures Collect(m, r, id, order).0.chosen == r.chosen
    decreases |order|
  {
    if order == [] then (r, [], 0)
    else
      var last := |order| - 1;
      var (r1, before, releases) := Collect(m, r, id, order[..last]);
      var (r2, out, release) := OnBranchCredit(m, r1, id, order[last]);
      (r2, before + out, releases + (if release then 1 else 0))
  }

  function Without(names: seq<Name>, c: Name): seq<Name> {
    if names == [] then []
    else
      var last := |names| - 1;
      Without(names[..last], c) + (if names[last] == c then [] else [names[last]])
  }

  lemma {:induction false} WithoutIsTheRest(names: seq<Name>, c: Name)
    ensures multiset(Without(names, c)) == multiset(names)[c := 0]
    decreases |names|
  {
    if names != [] {
      var last := |names| - 1;
      WithoutIsTheRest(names[..last], c);
      assert names == names[..last] + [names[last]];
    }
  }

  /** Before the last grant nothing leaves; the credits of the other downstreams are kept. */
  lemma {:induction false} CollectKeeps(m: Mapping, r: Hosted, id: Id, order: seq<Name>)
    requires m.mode.Dynamic? && r.chosen.Some? && r.req == 0 && r.held == []
    requires |order| < |m.downstreams| < UINT8
    ensures Collect(m, r, id, order) == (r.(req := |order|, held := Without(order, r.chosen.value)), [], 0)
    decreases |order|
  {
    if order != [] {
      var front := order[..|order| - 1];
      CollectKeeps(m, r, id, front);
      assert Without(front, r.chosen.value) + [] == Without(front, r.chosen.value);
    }
  }

  /** Dynamic fan-out is exact, whatever order the N grants arrive in: nothing is sent before the
      last one; then the chosen service gets the one sub-request and every other downstream gets
      its credit back, and the RPC's own slot is released once. */
  lemma {:induction false} DynamicFanoutIsExact(m: Mapping, r: Hosted, id: Id, order: seq<Name>)
    requires m.mode.Dynamic? && r.chosen.Some? && r.req == 0 && r.held == []
    requires 0 < |m.downstreams| < UINT8 && multiset(order) == multiset(m.downstreams)
    ensures forall n :: 0 <= n < |order| ==> Collect(m, r, id, order[..n]).1 == []
    ensures Collect(m, r, id, order).1 == [SubRequest(r.chosen.value, id)] + Returns(Without(order, r.chosen.value), id)
    ensures multiset(Without(order, r.chosen.value)) == multiset(m.downstreams)[r.chosen.value := 0]
    ensures Collect(m, r, id, order).2 == 1 && Collect(m, r, id, order).0.held == []
  {
    SameSize(order, m.downstreams);
    forall n | 0 <= n < |order|
      ensures Collect(m, r, id, order[..n]).1 == []
    {
      CollectKeeps(m, r, id, order[..n]);
    }
    LastCredit(m, r, id, order);
    WithoutIsTheRest(order, r.chosen.value);
  }

  /** The grant that makes the count complete. */
  lemma CompletingCredit(m: Mapping, r: Hosted, id: Id, ds: Name)
    requires m.mode.Dynamic? && r.chosen.Some? && r.req + 1 == |m.downstreams| < UINT8
    ensures var held := r.held + (if ds == r.chosen.value then [] else [ds]);
      OnBranchCredit(m, r, id, ds) ==
        (r.(req := r.req + 1, held := []), [SubRequest(r.chosen.value, id)] + Returns(held, id), true)
  {
    hide Returns;
    assert r.held + [] == r.held;
  }

  lemma LastCredit(m: Mapping, r: Hosted, id: Id, order: seq<Name>)
    requires m.mode.Dynamic? && r.chosen.Some? && r.req == 0 && r.held == []
    requires 0 < |order| == |m.downstreams| < UINT8
    ensures Collect(m, r, id, order).1 == [SubRequest(r.chosen.value, id)] + Returns(Without(order, r.chosen.value), id)
    ensures Collect(m, r, id, order).2 == 1 && Collect(m, r, id, order).0.held == []
  {
    hide Returns, OnBranchCredit;
    var front := order[..|order| - 1];
    CollectKeeps(m, r, id, front);
    var kept := r.(req := |front|, held := Without(front, r.chosen.value));
    CompletingCredit(m, kept, id, order[|order| - 1]);
    var sent := [SubRequest(r.chosen.value, id)] + Returns(Without(order, r.chosen.value), id);
    assert [] + sent == sent;
  }

  /** Every downstream but one gets a credit back exactly when the mapping lists the chosen service once. If it is
      listed more often, the further credits it grants are neither used nor returned. */
  lemma ReturnsAllOthersIff(m: Mapping, r: Hosted, id: Id, order: seq<Name>)
    requires m.mode.Dynamic? && r.chosen.Some? && r.req == 0 && r.held == []
    requires 0 < |m.downstreams| < UINT8 && multiset(order) == multiset(m.downstreams)
    ensures |Collect(m, r, id, order).1| == |m.downstreams| <==> multiset(m.downstreams)[r.chosen.value] == 1
  {
    hide Collect;
    DynamicFanoutIsExact(m, r, id, order);
    var rest := Without(order, r.chosen.value);
    var all := multiset(m.downstreams);
    assert |multiset(rest)| == |rest| && |all| == |m.downstreams|;
    MultisetWithout(all, r.chosen.value);
  }

  lemma MultisetWithout<T>(a: multiset<T>, c: T)
    ensures |a[c := 0]| == |a| - a[c]
  {
    assert a == a[c := 0] + multiset{}[c := a[c]];
    assert |multiset{}[c := a[c]]| == a[c];
  }

  lemma SameSize<T>(a: seq<T>, b: seq<T>)
    requires multiset(a) == multiset(b)
    ensures |a| == |b|
  {
    assert |multiset(a)| == |a| && |multiset(b)| == |b|;
  }
}
