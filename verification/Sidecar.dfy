/** The sidecar as the program has it: objects whose methods update them, one per handler. */
module Sidecars {
  import opened Names
  import opened Options
  import opened Scheduler
  import opened CreditQueues
  import opened Beats
  import opened Protocol

  /** Sub-requests that have asked for credit and wait for it, by service and id. */
  class PPMQueue {
    var queues: map<Name, set<Id>>

    constructor (services: set<Name>)
      ensures queues == map s | s in services :: {}
    {
      queues := map s | s in services :: {};
    }

    ghost predicate Has(s: Name, id: Id)
      reads this
    {
      s in queues && id in queues[s]
    }

    ghost function Contents(): set<(Name, Id)>
      reads this
    {
      set s, id | s in queues && id in queues[s] :: (s, id)
    }

    /** An unknown service or a repeated id is fatal. */
    method Push(s: Name, id: Id)
      requires s in queues && !Has(s, id)
      modifies this
      ensures Contents() == old(Contents()) + {(s, id)} && queues.Keys == old(queues.Keys)
    {
      queues := queues[s := queues[s] + {id}];
    }

    /** An unknown service or an id that is not there is fatal. */
    method Pop(s: Name, id: Id)
      requires Has(s, id)
      modifies this
      ensures Contents() == old(Contents()) - {(s, id)} && queues.Keys == old(queues.Keys)
    {
      queues := queues[s := queues[s] - {id}];
    }
  }

  class Sidecar {
    const cfg: Config
    const credit: CreditQueue<Request>
    const ppm: PPMQueue
    var rpcs: map<nat, Hosted>
    var counter: nat
    /** What was handed to the sockets, in order. */
    ghost var outbox: seq<Message>

    constructor (cfg: Config, credit: CreditQueue<Request>, ppm: PPMQueue)
      ensures this.cfg == cfg && this.credit == credit && this.ppm == ppm
      ensures rpcs == map[] && counter == 1 && outbox == []
    {
      this.cfg, this.credit, this.ppm := cfg, credit, ppm;
      rpcs, counter, outbox := map[], 1, [];
    }

    ghost predicate Valid()
      reads this, ppm, credit, credit.perIn, credit.perLimit, credit.level0, credit.level1, credit.level2,
            credit.level0.queue, credit.level1.queue, credit.level2.queue
    {
      credit.Valid()
    }

    ghost function Model(): Side
      reads this, ppm, credit, credit.perIn, credit.perLimit, credit.level0, credit.level1, credit.level2,
            credit.level0.queue, credit.level1.queue, credit.level2.queue
    {
      Side(credit.Model(), rpcs, ppm.Contents(), counter)
    }

    /** `check_credit_transmission`: one pop; what it returns is sent. */
    method CheckCreditTransmission()
      requires Valid()
      modifies this, credit, credit.perIn, credit.level0, credit.level1, credit.level2,
               credit.level0.queue, credit.level1.queue, credit.level2.queue
      ensures Valid() && Wf(old(credit.Model()))
      ensures Model() == old(Model()).(queue := Scheduler.Pop(old(credit.Model())).0)
      ensures outbox == old(outbox) + Transmitted(Scheduler.Pop(old(credit.Model())).1)
    {
      hide CreditQueue.Valid, CreditQueue.Model, PPMQueue.Contents, Wf, Scheduler.Pop;
      credit.ModelIsWf();
      ghost var g := Scheduler.Pop(credit.Model()).1;
      var buffer := credit.Pop();
      if buffer == None {
        return;
      }
      outbox := outbox + Transmitted(g);
    }

    /** `protocol_server` on a Credit Request: new limits if there are any, push, one pop. */
    method OnCreditRequest(e: Name, level: nat, request: Request, limit: Option<int>, globalLimit: Option<int>)
      requires Valid() && e in credit.perIn.contents && level < PRIORITY_COUNT
      modifies this, credit, credit.perIn, credit.perLimit, credit.level0, credit.level1, credit.level2,
               credit.level0.queue, credit.level1.queue, credit.level2.queue
      ensures Valid() && Runs(old(Model()), Requested(request, e, level, limit, globalLimit), Model(), old(outbox), outbox)
    {
      hide CreditQueue.Valid, CreditQueue.Model, PPMQueue.Contents, Wf, Scheduler.Pop;
      credit.ModelIsWf();
      KnownName(e);
      UpdateLimits(e, limit, globalLimit);
      credit.Push(request, e, level);
      CheckCreditTransmission();
    }

    /** `update_limits`, its new values chosen outside the model. */
    method UpdateLimits(e: Name, limit: Option<int>, globalLimit: Option<int>)
      requires Valid() && e in credit.perIn.contents
      modifies credit, credit.perLimit
      ensures Valid() && e in credit.perIn.contents
      ensures credit.Model() == WithLimits(old(credit.Model()), e, limit, globalLimit)
    {
      hide CreditQueue.Valid, CreditQueue.Model;
      KnownName(e);
      if limit.Some? {
        credit.UpdateEndpointLimit(limit.value, e);
        KnownName(e);
      }
      if globalLimit.Some? {
        credit.UpdateGlobalLimit(globalLimit.value);
      }
      KnownName(e);
    }

    lemma KnownName(e: Name)
      requires Valid()
      ensures e in credit.Model().perIn <==> e in credit.perIn.contents
      ensures e in credit.perIn.contents <==> e in credit.perLimit.contents
    {
    }

    /** `protocol_server` on a Credit Return, and the release of a slot on other paths. */
    method Release(e: Name)
      requires Valid() && e in credit.perIn.contents
      modifies this, credit, credit.perIn, credit.level0, credit.level1, credit.level2,
               credit.level0.queue, credit.level1.queue, credit.level2.queue
      ensures Valid() && Runs(old(Model()), Released(e), Model(), old(outbox), outbox)
    {
      hide CreditQueue.Valid, CreditQueue.Model, PPMQueue.Contents, Wf, Scheduler.Pop;
      credit.ModelIsWf();
      KnownName(e);
      credit.AddInFlight(e, -1);
      CheckCreditTransmission();
    }

    /** A request with a grant reaches the hosted service under a new id. */
    method OnRequest(e: Name)
      requires Valid()
      modifies this`rpcs, this`counter
      ensures Valid() && Model() == OnAdmit(old(Model()), e)
    {
      hide CreditQueue.Valid, CreditQueue.Model, PPMQueue.Contents;
      counter := counter + 1;
      rpcs := rpcs[counter := Hosted(e, 0, 0, [], None)];
    }

    /** `protocol_client(false)` for one sub-request: queue it and ask for credit, in dynamic
        fan-out at every downstream. */
    method SubCall(parent: nat, ds: Name)
      requires Valid() && parent in rpcs && rpcs[parent].service in cfg
      requires ds in ppm.queues && !ppm.Has(ds, Id(parent, counter + 1))
      modifies this, ppm
      ensures Valid() && Model() == OnSubCall(cfg, old(Model()), parent, ds).0
      ensures outbox == old(outbox) + OnSubCall(cfg, old(Model()), parent, ds).1
    {
      hide CreditQueue.Valid, CreditQueue.Model, PPMQueue.Contents;
      counter := counter + 1;
      var id := Id(parent, counter);
      ppm.Push(ds, id);
      var r := rpcs[parent];
      var m := cfg[r.service];
      if m.mode.Dynamic? {
        rpcs := rpcs[parent := r.(chosen := Some(ds))];
        RequestAll(m.downstreams, id);
      } else {
        outbox := outbox + [CreditRequest(ds, id)];
      }
    }

    method RequestAll(services: seq<Name>, id: Id)
      modifies this`outbox
      ensures outbox == old(outbox) + CreditRequests(services, id)
    {
      var i := 0;
      while i < |services|
        invariant 0 <= i <= |services|
        invariant outbox + CreditRequests(services[i..], id) == old(outbox) + CreditRequests(services, id)
      {
        assert services[i..][1..] == services[i + 1..];
        outbox := outbox + [CreditRequest(services[i], id)];
        i := i + 1;
      }
    }

    /** `fanout_req_management`: a Credit Grant from `ds` for sub-request `id`. */
    method FanoutReqManagement(ds: Name, id: Id)
      requires Valid() && GrantFits(ds, id)
      modifies this, ppm, credit, credit.perIn, credit.level0, credit.level1, credit.level2,
               credit.level0.queue, credit.level1.queue, credit.level2.queue
      ensures Valid() && Wf(old(Model()).queue)
      ensures Model() == OnGrant(cfg, old(Model()), ds, id).0
      ensures outbox == old(outbox) + OnGrant(cfg, old(Model()), ds, id).1
    {
      hide CreditQueue.Valid, CreditQueue.Model, PPMQueue.Contents, Wf, RunBeat, Protocol.OnBranchCredit;
      credit.ModelIsWf();
      ghost var s := Model();
      var service := rpcs[id.parent].service;
      KnownName(service);
      var release := BranchCredit(ds, id);
      KnownName(service);
      if release {
        Release(service);
      }
    }

    /** The grant names a known RPC, and the sub-request it lets out is waiting. */
    ghost predicate GrantFits(ds: Name, id: Id)
      reads this, ppm, credit, credit.perIn, credit.perLimit, credit.level0, credit.level1, credit.level2,
            credit.level0.queue, credit.level1.queue, credit.level2.queue
    {
      && id.parent in rpcs
      && var r := rpcs[id.parent];
         && r.service in cfg && r.service in credit.Model().perIn
         && (cfg[r.service].mode.Dynamic? ==> r.chosen.Some?)
         && (Popped(cfg[r.service], r, ds).Some? ==> (Popped(cfg[r.service], r, ds).value, id) in ppm.Contents())
    }

    /** The branch counters, the queue of sub-requests and the messages of a grant; `release` says
        whether the RPC's own slot is to be given back. */
    method BranchCredit(ds: Name, id: Id) returns (release: bool)
      requires Valid() && GrantFits(ds, id)
      modifies this, ppm
      ensures Valid() && credit.Model() == old(credit.Model()) && counter == old(counter)
      ensures var r := old(rpcs)[id.parent];
              var (r', out, give) := OnBranchCredit(cfg[r.service], r, id, ds);
              var popped := Popped(cfg[r.service], r, ds);
              && rpcs == old(rpcs)[id.parent := r'] && outbox == old(outbox) + out && release == give
              && ppm.Contents() == if popped.Some? then old(ppm.Contents()) - {(popped.value, id)} else old(ppm.Contents())
    {
      hide CreditQueue.Valid, CreditQueue.Model;
      var r := rpcs[id.parent];
      var m := cfg[r.service];
      if m.mode.Parallel? {
        r := r.(req := (r.req + 1) % UINT8);
        rpcs := rpcs[id.parent := r];
        ppm.Pop(ds, id);
        outbox := outbox + [SubRequest(ds, id)];
        return r.req == |m.downstreams|;
      } else if m.mode.Dynamic? {
        release := DynamicCredit(ds, id);
      } else {
        ppm.Pop(ds, id);
        outbox := outbox + [SubRequest(ds, id)];
        assert rpcs[id.parent := r] == rpcs;
        return true;
      }
    }

    method DynamicCredit(ds: Name, id: Id) returns (release: bool)
      requires Valid() && GrantFits(ds, id) && cfg[rpcs[id.parent].service].mode.Dynamic?
      modifies this, ppm
      ensures Valid() && credit.Model() == old(credit.Model()) && counter == old(counter)
      ensures var r := old(rpcs)[id.parent];
              var (r', out, give) := OnBranchCredit(cfg[r.service], r, id, ds);
              var popped := Popped(cfg[r.service], r, ds);
              && rpcs == old(rpcs)[id.parent := r'] && outbox == old(outbox) + out && release == give
              && ppm.Contents() == if popped.Some? then old(ppm.Contents()) - {(popped.value, id)} else old(ppm.Contents())
    {
      hide CreditQueue.Valid, CreditQueue.Model, Returns;
      var r := rpcs[id.parent];
      var m := cfg[r.service];
      r := r.(req := (r.req + 1) % UINT8);
      if r.chosen.value != ds {
        r := r.(held := r.held + [ds]);
      }
      rpcs := rpcs[id.parent := r];
      if r.req != |m.downstreams| {
        return false;
      }
      ppm.Pop(r.chosen.value, id);
      outbox := outbox + [SubRequest(r.chosen.value, id)];
      ReturnAll(r.held, id);
      rpcs := rpcs[id.parent := r.(held := [])];
      return true;
    }

    /** Flush a queue of Credit Returns. */
    method ReturnAll(held: seq<Name>, id: Id)
      modifies this`outbox
      ensures outbox == old(outbox) + Returns(held, id)
    {
      var rest := held;
      while |rest| > 0
        invariant outbox + Returns(rest, id) == old(outbox) + Returns(held, id)
      {
        outbox := outbox + [CreditReturn(rest[0], id)];
        rest := rest[1..];
      }
    }

    /** `fanout_res_credit_management`: the response of sub-request `id`. */
    method FanoutResCreditManagement(id: Id)
      requires Valid() && id.parent in rpcs && rpcs[id.parent].service in cfg
      requires rpcs[id.parent].service in credit.perIn.contents
      modifies this, credit, credit.perIn
      ensures Valid() && outbox == old(outbox) && Wf(old(Model()).queue) && rpcs.Keys == old(rpcs.Keys)
      ensures old(rpcs[id.parent].service in credit.Model().perIn)
      ensures Model() == OnEgressResponse(cfg, old(Model()), id)
    {
      hide CreditQueue.Valid, CreditQueue.Model, PPMQueue.Contents, Wf;
      credit.ModelIsWf();
      var r := rpcs[id.parent];
      KnownName(r.service);
      if cfg[r.service].mode.Parallel? {
        r := r.(res := (r.res + 1) % UINT8);
        rpcs := rpcs[id.parent := r];
        if r.res > 1 {
          return;
        }
      }
      assert rpcs[id.parent := r] == rpcs;
      credit.AddInFlight(r.service, 1);
    }

    /** The hosted service answers: its slot is given back and the RPC is forgotten. */
    method OnResponse(parent: nat)
      requires Valid() && parent in rpcs && rpcs[parent].service in credit.perIn.contents
      modifies this, credit, credit.perIn, credit.level0, credit.level1, credit.level2,
               credit.level0.queue, credit.level1.queue, credit.level2.queue
      ensures Valid() && Wf(old(Model()).queue) && old(rpcs[parent].service in credit.Model().perIn)
      ensures Model() == OnIngressResponse(old(Model()), parent).0
      ensures outbox == old(outbox) + OnIngressResponse(old(Model()), parent).1
    {
      hide CreditQueue.Valid, CreditQueue.Model, PPMQueue.Contents, Wf, RunBeat;
      Release(rpcs[parent].service);
      rpcs := rpcs - {parent};
    }
  }

  /** One beat of the plain model was run and its messages were sent. */
  ghost predicate Runs(s: Side, beat: Beat<Request>, t: Side, before: seq<Message>, after: seq<Message>) {
    && Wf(s.queue) && Known(s.queue, beat)
    && t == RunBeat(s, beat).0 && after == before + RunBeat(s, beat).1
  }

  ghost function Transmitted(g: Option<Grant<Request>>): seq<Message> {
    if g.Some? then [CreditGrant(g.value.endpoint, g.value.buffer)] else []
  }
}
