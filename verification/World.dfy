/** One sidecar among its clients, its hosted services and its downstreams: what is in transit,
    what each hosted RPC has asked for and received, and every step the system can take. */
module Worlds {
  import opened Names
  import opened Options
  import opened Sums
  import opened Scheduler
  import opened Beats
  import opened Protocol

  datatype LedgerOf<W, R> = Ledger(calls: nat, arrived: nat, waiting: W, running: R, answered: nat)

  /** What happened to the sub-calls of one hosted RPC: how many were made, how many Credit Grants
      came back for them, which (downstream, branch) still waits for its grant, which branches were
      sent and not yet answered, how many were answered. */
  type Ledger = LedgerOf<multiset<(Name, nat)>, set<nat>>

  datatype WorldOf<S, T, L> = World(side: S, grants: T, admissions: T, refunds: T, ledgers: L)

  /** The sidecar; per endpoint the Credit Grants on their way to clients, the requests on their way
      back with such a grant, and the Credit Returns on their way back; and the ledgers. */
  type World = WorldOf<Side, map<Name, int>, map<nat, Ledger>>

  datatype Event =
    | CreditRequestIn(endpoint: Name, level: nat, request: Request, limit: Option<int>, globalLimit: Option<int>)
    | CreditUsed(endpoint: Name)
    | CreditRefused(endpoint: Name)
    | CreditReturnIn(endpoint: Name)
    | RequestIn(endpoint: Name)
    | SubCallOut(parent: nat, downstream: Name)
    | GrantIn(downstream: Name, id: Id)
    | SubResponseIn(id: Id)
    | ResponseOut(parent: nat)

  /** What the configuration loader enforces. */
  ghost predicate ConfigOk(cfg: Config) {
    forall e :: e in cfg ==> |cfg[e].downstreams| < UINT8
  }

  function Fan(m: Mapping): nat {
    |m.downstreams|
  }

  predicate AllArrived(m: Mapping, l: Ledger) {
    l.calls > 0 && l.arrived == Fan(m)
  }

  /** The slots an admitted RPC occupies: one, less one once its sub-request side has let go, plus
      one once its response side has taken hold again. */
  function SlotsHeld(m: Mapping, l: Ledger): int {
    match m.mode
    case Sequential => 1 - |l.running|
    case Parallel => 1 - (if AllArrived(m, l) then 1 else 0) + (if l.answered > 0 then 1 else 0)
    case Dynamic => 1 - (if AllArrived(m, l) then 1 else 0) + l.answered
  }

  // ----- what the environment may do -----

  /** UDP neither loses nor duplicates; a client holds one use or one return per grant; a hosted call
      waits for its synchronous sub-calls and, in the fan-out modes, makes one round of them. */
  predicate Guard(cfg: Config, w: World, ev: Event) {
    match ev
    case CreditRequestIn(e, p, _, _, _) => e in cfg && p < PRIORITY_COUNT
    case CreditUsed(e) => e in cfg && e in w.grants && w.grants[e] > 0
    case CreditRefused(e) => e in cfg && e in w.grants && w.grants[e] > 0
    case CreditReturnIn(e) => e in cfg && e in w.refunds && w.refunds[e] > 0
    case RequestIn(e) => e in cfg && e in w.admissions && w.admissions[e] > 0
    case SubCallOut(parent, ds) =>
      && parent in w.side.rpcs && parent in w.ledgers && w.side.rpcs[parent].service in cfg
      && var m, l := cfg[w.side.rpcs[parent].service], w.ledgers[parent];
         && ds in m.downstreams
         && (match m.mode
             case Sequential => l.waiting == multiset{} && l.running == {}
             case Parallel => l.calls < Fan(m)
             case Dynamic => l.calls == 0)
    case GrantIn(ds, id) =>
      id.parent in w.side.rpcs && id.parent in w.ledgers && (ds, id.branch) in w.ledgers[id.parent].waiting
    case SubResponseIn(id) =>
      id.parent in w.side.rpcs && id.parent in w.ledgers && id.branch in w.ledgers[id.parent].running
    case ResponseOut(parent) =>
      && parent in w.side.rpcs && parent in w.ledgers && w.side.rpcs[parent].service in cfg
      && var m, l := cfg[w.side.rpcs[parent].service], w.ledgers[parent];
         && l.waiting == multiset{} && l.running == {}
         && (m.mode.Parallel? ==> l.calls == 0 || l.calls == Fan(m))
  }

  // ----- the invariant -----

  /** The sub-calls whose RPC is in the sidecar's queue of requests without credit. */
  predicate Pending(m: Mapping, r: Hosted, l: Ledger, ds: Name, branch: nat) {
    if m.mode.Dynamic? then
      r.chosen == Some(ds) && exists s :: s in m.downstreams && (s, branch) in l.waiting
    else (ds, branch) in l.waiting
  }

  /** The sub-calls that wait and those that run: to mapped downstreams, under ids that were given out, none in both
      states, and told apart by their ids, except that in dynamic fan-out all waiting ones share one. */
  ghost predicate CallsOk(m: Mapping, l: Ledger, counter: nat) {
    && (forall x :: x in l.waiting ==> x.0 in m.downstreams && x.1 <= counter)
    && (!m.mode.Dynamic? ==> forall x :: x in l.waiting ==> l.waiting[x] == 1)
    && (forall b :: b in l.running ==> b <= counter)
    && (forall x :: x in l.waiting ==> x.1 !in l.running)
    && (forall x, y :: x in l.waiting && y in l.waiting ==> (x.1 == y.1 <==> m.mode.Dynamic? || x == y))
  }

  /** How many sub-calls are where, and what the RPC has counted of them. */
  ghost predicate CountsOk(m: Mapping, r: Hosted, l: Ledger) {
    match m.mode
    case Sequential =>
      && l.calls == l.answered + |l.running| + |l.waiting|
      && |l.running| + |l.waiting| <= 1
    case Parallel =>
      && l.calls == l.arrived + |l.waiting| <= Fan(m)
      && l.arrived == l.answered + |l.running|
      && r.req == l.arrived && r.res == l.answered
    case Dynamic =>
      && (l.calls == 0 ==> l.arrived == 0 && l.waiting == multiset{} && l.running == {} && l.answered == 0)
      && (l.calls > 0 ==> r.chosen.Some? && l.arrived + |l.waiting| == Fan(m) > 0
                           && |l.running| + l.answered == if l.arrived == Fan(m) then 1 else 0)
      && r.req == l.arrived
  }

  /** The credit fields of an RPC agree with its ledger. */
  ghost predicate RpcOk(m: Mapping, r: Hosted, l: Ledger, counter: nat) {
    CallsOk(m, l, counter) && CountsOk(m, r, l)
  }

  ghost predicate ServerOk(cfg: Config, w: World) {
    && Wf(w.side.queue)
    && w.side.queue.perIn.Keys == cfg.Keys
    && w.grants.Keys == cfg.Keys && w.admissions.Keys == cfg.Keys && w.refunds.Keys == cfg.Keys
    && (forall e :: e in cfg ==> w.grants[e] >= 0 && w.admissions[e] >= 0 && w.refunds[e] >= 0)
    && w.side.queue.inFlight == Sum(w.side.queue.perIn)
  }

  ghost predicate RpcsOk(cfg: Config, w: World) {
    && w.side.rpcs.Keys == w.ledgers.Keys
    && forall p :: p in w.ledgers ==>
         && p <= w.side.counter
         && w.side.rpcs[p].service in cfg
         && RpcOk(cfg[w.side.rpcs[p].service], w.side.rpcs[p], w.ledgers[p], w.side.counter)
  }

  /** The queue of requests without credit holds exactly the sub-calls that still need it. */
  ghost predicate QueueOk(cfg: Config, w: World)
    requires RpcsOk(cfg, w)
  {
    forall ds: Name, id: Id :: (ds, id) in w.side.ppm <==>
      && id.parent in w.ledgers
      && Pending(cfg[w.side.rpcs[id.parent].service], w.side.rpcs[id.parent], w.ledgers[id.parent], ds, id.branch)
  }

  ghost function Weights(cfg: Config, rpcs: map<nat, Hosted>, ledgers: map<nat, Ledger>, e: Name): map<nat, int> {
    map p | p in ledgers ::
      if p in rpcs && rpcs[p].service == e && e in cfg then SlotsHeld(cfg[e], ledgers[p]) else 0
  }

  /** What the counter of `e` holds beyond the credits in transit. */
  ghost function Held(w: World, e: Name): int
    requires e in w.side.queue.perIn && e in w.grants && e in w.admissions && e in w.refunds
  {
    w.side.queue.perIn[e] - w.grants[e] - w.admissions[e] - w.refunds[e]
  }

  /** Credit conservation. */
  ghost predicate Balanced(cfg: Config, w: World)
    requires ServerOk(cfg, w)
  {
    forall e :: e in cfg ==> Held(w, e) == Sum(Weights(cfg, w.side.rpcs, w.ledgers, e))
  }

  ghost predicate Inv(cfg: Config, w: World) {
    ServerOk(cfg, w) && RpcsOk(cfg, w) && QueueOk(cfg, w) && Balanced(cfg, w)
  }

  // ----- the steps -----

  /** How many Credit Grants for `e` are among the messages. */
  function Issued(ms: seq<Message>, e: Name): nat {
    if ms == [] then 0
    else (if ms[0].CreditGrant? && ms[0].endpoint == e then 1 else 0) + Issued(ms[1..], e)
  }

  function Sent(grants: map<Name, int>, ms: seq<Message>): map<Name, int> {
    map e | e in grants :: grants[e] + Issued(ms, e)
  }

  /** Whether the sub-request `id` is among the messages. */
  predicate Forwarded(ms: seq<Message>, id: Id) {
    exists i :: 0 <= i < |ms| && ms[i].SubRequest? && ms[i].id == id
  }

  /** The calls one sub-request opens: to its own downstream, or in dynamic fan-out to all. */
  function Asked(m: Mapping, ds: Name, branch: nat): multiset<(Name, nat)> {
    if m.mode.Dynamic? then AskAll(m.downstreams, branch) else multiset{(ds, branch)}
  }

  function AskAll(names: seq<Name>, branch: nat): multiset<(Name, nat)> {
    if names == [] then multiset{} else AskAll(names[..|names| - 1], branch) + multiset{(names[|names| - 1], branch)}
  }

  /** A handler that ran one beat and nothing else. */
  function AfterBeat(w: World, beat: Beat<Request>): World
    requires Wf(w.side.queue) && Known(w.side.queue, beat)
  {
    var (s, ms) := RunBeat(w.side, beat);
    w.(side := s, grants := Sent(w.grants, ms))
  }

  lemma GrantPossible(cfg: Config, w: World, ds: Name, id: Id)
    requires Inv(cfg, w) && Guard(cfg, w, GrantIn(ds, id))
    ensures id.parent in w.side.rpcs
    ensures var r := w.side.rpcs[id.parent];
            && r.service in cfg && r.service in w.side.queue.perIn
            && (cfg[r.service].mode.Dynamic? ==> r.chosen.Some?)
            && (Popped(cfg[r.service], r, ds).Some? ==> (Popped(cfg[r.service], r, ds).value, id) in w.side.ppm)
  {
    hide Balanced, Wf, RpcOk;
    var r, l := w.side.rpcs[id.parent], w.ledgers[id.parent];
    var m := cfg[r.service];
    GrantIsAwaited(m, r, l, w.side.counter, ds, id.branch);
    var popped := if m.mode.Dynamic? then r.chosen.value else ds;
    assert Pending(m, r, l, popped, id.branch);
    assert (popped, id) in w.side.ppm;
  }

  lemma GrantIsAwaited(m: Mapping, r: Hosted, l: Ledger, counter: nat, ds: Name, branch: nat)
    requires RpcOk(m, r, l, counter) && (ds, branch) in l.waiting
    ensures m.mode.Dynamic? ==> r.chosen.Some?
    ensures Pending(m, r, l, if m.mode.Dynamic? then r.chosen.value else ds, branch)
  {
    var x := (ds, branch);
    assert x in l.waiting;
  }

  function SubCallStep(cfg: Config, w: World, parent: nat, ds: Name): World
    requires RpcsOk(cfg, w) && Guard(cfg, w, SubCallOut(parent, ds))
  {
    var m, l := cfg[w.side.rpcs[parent].service], w.ledgers[parent];
    w.(side := OnSubCall(cfg, w.side, parent, ds).0,
       ledgers := w.ledgers[parent := l.(calls := l.calls + 1, waiting := l.waiting + Asked(m, ds, w.side.counter + 1))])
  }

  function GrantStep(cfg: Config, w: World, ds: Name, id: Id): World
    requires Inv(cfg, w) && Guard(cfg, w, GrantIn(ds, id))
  {
    GrantPossible(cfg, w, ds, id);
    var (s, ms) := OnGrant(cfg, w.side, ds, id);
    var l := w.ledgers[id.parent];
    w.(side := s, grants := Sent(w.grants, ms),
       ledgers := w.ledgers[id.parent := l.(arrived := l.arrived + 1, waiting := l.waiting - multiset{(ds, id.branch)},
                                            running := l.running + (if Forwarded(ms, id) then {id.branch} else {}))])
  }

  function SubResponseStep(cfg: Config, w: World, id: Id): World
    requires ServerOk(cfg, w) && RpcsOk(cfg, w) && Guard(cfg, w, SubResponseIn(id))
  {
    var l := w.ledgers[id.parent];
    w.(side := OnEgressResponse(cfg, w.side, id),
       ledgers := w.ledgers[id.parent := l.(running := l.running - {id.branch}, answered := l.answered + 1)])
  }

  function ResponseStep(cfg: Config, w: World, parent: nat): World
    requires ServerOk(cfg, w) && RpcsOk(cfg, w) && Guard(cfg, w, ResponseOut(parent))
  {
    var (s, ms) := OnIngressResponse(w.side, parent);
    w.(side := s, grants := Sent(w.grants, ms), ledgers := w.ledgers - {parent})
  }

  /** One step of the world; the sidecar's part is its handler. */
  function Next(cfg: Config, w: World, ev: Event): World
    requires Inv(cfg, w) && Guard(cfg, w, ev)
  {
    match ev
    case CreditRequestIn(e, p, request, limit, globalLimit) => AfterBeat(w, Requested(request, e, p, limit, globalLimit))
    case CreditUsed(e) => w.(grants := w.grants[e := w.grants[e] - 1], admissions := w.admissions[e := w.admissions[e] + 1])
    case CreditRefused(e) => w.(grants := w.grants[e := w.grants[e] - 1], refunds := w.refunds[e := w.refunds[e] + 1])
    case CreditReturnIn(e) => AfterBeat(w.(refunds := w.refunds[e := w.refunds[e] - 1]), Released(e))
    case RequestIn(e) =>
      w.(side := OnAdmit(w.side, e), admissions := w.admissions[e := w.admissions[e] - 1],
         ledgers := w.ledgers[w.side.counter + 1 := Ledger(0, 0, multiset{}, {}, 0)])
    case SubCallOut(parent, ds) => SubCallStep(cfg, w, parent, ds)
    case GrantIn(ds, id) => GrantStep(cfg, w, ds, id)
    case SubResponseIn(id) => SubResponseStep(cfg, w, id)
    case ResponseOut(parent) => ResponseStep(cfg, w, parent)
  }
}
