/** The ingress worker: one deque, one Credit Request at a time. */
module Ingresses {
  import opened Options

  /** An admitted request: its id is given on admission. `tag` stands for its contents. */
  datatype Pending = Pending(id: nat, tag: nat)

  datatype StateOf<Q> = State(queue: Q, onFly: bool, cap: nat, drops: nat, counter: nat)

  /** The deque, whether a Credit Request is out, the admission cap, the number of dropped requests,
      and the id counter. */
  type State = StateOf<seq<Pending>>

  // ----- the operations as functions -----

  function Enqueue(s: State, tag: nat): State {
    if |s.queue| >= s.cap then s.(drops := s.drops + 1)
    else s.(queue := s.queue + [Pending(s.counter + 1, tag)], counter := s.counter + 1)
  }

  /** `ingress_pre_credit`: the cap may have moved; then ask for the head if nothing is out. */
  function PreCredit(s: State, cap: Option<nat>): (State, Option<nat>) {
    var t := if cap.Some? then s.(cap := if cap.value < 1 then 1 else cap.value) else s;
    if |t.queue| > 0 && !t.onFly then (t.(onFly := true), Some(t.queue[0].id)) else (t, None)
  }

  /** `dequeue`, which is fatal on an empty deque. */
  function Dequeue(s: State): (State, Pending)
    requires s.queue != []
  {
    (s.(queue := s.queue[1..], onFly := false), s.queue[0])
  }

  // ----- the objects -----

  class Ingress {
    var queue: seq<Pending>
    var hasCreditRequestOnFly: bool
    var cap: nat
    var dropId: nat
    var counter: nat
    /** The ids for which a Credit Request was sent, and the requests that were forwarded. */
    ghost var asked: seq<nat>
    ghost var forwarded: seq<Pending>

    ghost function Model(): State
      reads this
    {
      State(queue, hasCreditRequestOnFly, cap, dropId, counter)
    }

    constructor ()
      ensures Model() == State([], false, 10, 0, 1) && asked == [] && forwarded == []
    {
      queue, hasCreditRequestOnFly, cap, dropId, counter := [], false, 10, 0, 1;
      asked, forwarded := [], [];
    }

    method EnqueueRpc(tag: nat) returns (admitted: bool)
      modifies this
      ensures Model() == Enqueue(old(Model()), tag) && asked == old(asked) && forwarded == old(forwarded)
      ensures admitted <==> old(|queue| < cap)
    {
      if |queue| >= cap {
        dropId := dropId + 1;
        return false;
      }
      counter := counter + 1;
      queue := queue + [Pending(counter, tag)];
      return true;
    }

    method DequeueRpc() returns (rpc: Pending)
      requires queue != []
      modifies this
      ensures Model() == Dequeue(old(Model())).0 && rpc == Dequeue(old(Model())).1
      ensures asked == old(asked) && forwarded == old(forwarded)
    {
      rpc := queue[0];
      queue := queue[1..];
      hasCreditRequestOnFly := false;
    }

    method SendCreditRequestChecker() returns (check: bool)
      modifies this`hasCreditRequestOnFly
      ensures check <==> |queue| > 0 && !old(hasCreditRequestOnFly)
      ensures hasCreditRequestOnFly == (check || old(hasCreditRequestOnFly))
    {
      check := |queue| > 0 && !hasCreditRequestOnFly;
      hasCreditRequestOnFly := if check then true else hasCreditRequestOnFly;
    }

    /** `newCap` is what the control law yields, if it runs now. */
    method IngressPreCredit(newCap: Option<nat>)
      modifies this
      ensures Model() == PreCredit(old(Model()), newCap).0 && forwarded == old(forwarded)
      ensures var r := PreCredit(old(Model()), newCap).1;
              asked == old(asked) + if r.Some? then [r.value] else []
    {
      if newCap.Some? {
        cap := if newCap.value < 1 then 1 else newCap.value;
      }
      var check := SendCreditRequestChecker();
      if check {
        asked := asked + [queue[0].id];
      }
    }

    method IngressPostCredit(newCap: Option<nat>)
      requires queue != []
      modifies this
      ensures Model() == PreCredit(Dequeue(old(Model())).0, newCap).0
      ensures forwarded == old(forwarded) + [Dequeue(old(Model())).1]
      ensures var r := PreCredit(Dequeue(old(Model())).0, newCap).1;
              asked == old(asked) + if r.Some? then [r.value] else []
    {
      var rpc := DequeueRpc();
      forwarded := forwarded + [rpc];
      IngressPreCredit(newCap);
    }
  }

  // ----- the worker and its credit server -----

  datatype Wire = RequestOut(id: nat) | GrantOut(id: nat)

  datatype WorldOf<S, W, F> = World(state: S, wire: W, forwarded: F)

  /** The worker, the Credit Requests and Credit Grants on the wire, and what was forwarded so far. */
  type World = WorldOf<State, seq<Wire>, seq<Pending>>

  datatype Event =
    | Arrival(tag: nat, cap: Option<nat>)
    | OtherRead(cap: Option<nat>)
    | ServerGrants(at: nat)
    | GrantIn(at: nat, cap: Option<nat>)

  predicate Guard(w: World, ev: Event) {
    match ev
    case ServerGrants(i) => i < |w.wire| && w.wire[i].RequestOut?
    case GrantIn(i, _) => i < |w.wire| && w.wire[i].GrantOut?
    case _ => true
  }

  function Ask(r: Option<nat>): seq<Wire> {
    if r.Some? then [RequestOut(r.value)] else []
  }

  /** One handler of the worker, or one move of the credit server. A grant meets the deque. */
  function Next(w: World, ev: Event): World
    requires Guard(w, ev) && (ev.GrantIn? ==> w.state.queue != [])
  {
    match ev
    case Arrival(tag, cap) =>
      var (s, r) := PreCredit(Enqueue(w.state, tag), cap);
      w.(state := s, wire := w.wire + Ask(r))
    case OtherRead(cap) =>
      var (s, r) := PreCredit(w.state, cap);
      w.(state := s, wire := w.wire + Ask(r))
    case ServerGrants(i) => w.(wire := w.wire[i := GrantOut(w.wire[i].id)])
    case GrantIn(i, cap) =>
      var (t, rpc) := Dequeue(w.state);
      var (s, r) := PreCredit(t, cap);
      World(s, w.wire[..i] + w.wire[i + 1..] + Ask(r), w.forwarded + [rpc])
  }

  /** A Credit Request is out exactly when the deque is not empty; then there is exactly one message
      on the wire and it carries the id of the head. */
  ghost predicate CycleOk(w: World) {
    && (w.state.onFly <==> w.state.queue != [])
    && (if w.state.queue == [] then w.wire == [] else |w.wire| == 1 && w.wire[0].id == w.state.queue[0].id)
  }

  /** The credit cycle: every step keeps it, a grant never meets an empty deque, and the request it
      releases is the one the grant was asked for. */
  lemma NextKeepsCycle(w: World, ev: Event)
    requires CycleOk(w) && Guard(w, ev)
    ensures ev.GrantIn? ==> w.state.queue != [] && Dequeue(w.state).1.id == w.wire[ev.at].id
    ensures CycleOk(Next(w, ev))
  {
    if ev.GrantIn? {
      assert ev.at == 0;
      assert w.wire[..0] + w.wire[1..] == [];
    }
  }

  ghost predicate Run(w: World, evs: seq<Event>)
    requires CycleOk(w)
    decreases |evs|
  {
    evs == [] || (Guard(w, evs[0]) && (NextKeepsCycle(w, evs[0]); Run(Next(w, evs[0]), evs[1..])))
  }

  ghost function After(w: World, evs: seq<Event>): World
    requires CycleOk(w) && Run(w, evs)
    decreases |evs|
  {
    if evs == [] then w else NextKeepsCycle(w, evs[0]); After(Next(w, evs[0]), evs[1..])
  }

  function AdmittedBy(w: World, ev: Event): seq<Pending> {
    if ev.Arrival? && |w.state.queue| < w.state.cap then [Pending(w.state.counter + 1, ev.tag)] else []
  }

  /** What a run admits, in order: the arrivals that found room. */
  ghost function Admitted(w: World, evs: seq<Event>): seq<Pending>
    requires CycleOk(w) && Run(w, evs)
    decreases |evs|
  {
    if evs == [] then []
    else
      NextKeepsCycle(w, evs[0]);
      AdmittedBy(w, evs[0]) + Admitted(Next(w, evs[0]), evs[1..])
  }

  lemma StepInOrder(w: World, ev: Event)
    requires CycleOk(w) && Guard(w, ev)
    ensures ev.GrantIn? ==> w.state.queue != []
    ensures w.forwarded + w.state.queue + AdmittedBy(w, ev) == Next(w, ev).forwarded + Next(w, ev).state.queue
  {
    NextKeepsCycle(w, ev);
  }

  lemma Chain<T>(a: seq<T>, first: seq<T>, b: seq<T>, rest: seq<T>, c: seq<T>)
    requires a + first == b && b + rest == c
    ensures a + (first + rest) == c
  {
    assert a + (first + rest) == (a + first) + rest;
  }

  /** Over any run, whatever is dropped and however the cap moves, the requests are forwarded in the
      order of their admission, each once, and the cycle holds at the end. */
  lemma {:induction false} ForwardedInOrder(w: World, evs: seq<Event>)
    requires CycleOk(w) && Run(w, evs)
    ensures CycleOk(After(w, evs))
    ensures w.forwarded + w.state.queue + Admitted(w, evs) == After(w, evs).forwarded + After(w, evs).state.queue
    decreases |evs|
  {
    hide Next, CycleOk, AdmittedBy, Guard;
    if evs != [] {
      NextKeepsCycle(w, evs[0]);
      var v := Next(w, evs[0]);
      ForwardedInOrder(v, evs[1..]);
      StepInOrder(w, evs[0]);
      Chain(w.forwarded + w.state.queue, AdmittedBy(w, evs[0]), v.forwarded + v.state.queue,
            Admitted(v, evs[1..]), After(v, evs[1..]).forwarded + After(v, evs[1..]).state.queue);
    }
  }
}
