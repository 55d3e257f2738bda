/** What one handled event does to the credit queue, and why one pop per event is enough. */
module Beats {
  import opened Names
  import opened Options
  import opened Scheduler
  import opened SchedulerProofs
  import opened Sums

  /** The three ways the event handlers touch the queue. A Credit Request may first change the
      endpoint's limit and the global limit. */
  datatype Beat<B> =
    | Requested(buffer: B, endpoint: Name, level: nat, limit: Option<int>, globalLimit: Option<int>)
    | Released(endpoint: Name)
    | Reacquired(endpoint: Name)

  predicate Known<B>(s: Sched<B>, beat: Beat<B>) {
    && beat.endpoint in s.perIn
    && (beat.Requested? ==> beat.level < PRIORITY_COUNT)
  }

  /** `update_limits`: the endpoint's limit, then the global one. */
  function WithLimits<B>(s: Sched<B>, e: Name, limit: Option<int>, globalLimit: Option<int>): Sched<B> {
    var t := if limit.Some? then SetEndpointLimit(s, e, limit.value) else s;
    if globalLimit.Some? then SetGlobalLimit(t, globalLimit.value) else t
  }

  /** The queue just before the handler's pop. */
  function BeforePop<B>(s: Sched<B>, beat: Beat<B>): Sched<B>
    requires Wf(s) && Known(s, beat)
  {
    match beat
    case Requested(b, e, p, limit, globalLimit) => Push(WithLimits(s, e, limit, globalLimit), b, e, p)
    case Released(e) => AddInFlight(s, e, -1)
    case Reacquired(e) => AddInFlight(s, e, 1)
  }

  lemma BeforePopIsWf<B>(s: Sched<B>, beat: Beat<B>)
    requires Wf(s) && Known(s, beat)
    ensures Wf(BeforePop(s, beat)) && BeforePop(s, beat).perIn.Keys == s.perIn.Keys
  {
    var t := BeforePop(s, beat);
    assert t.perIn.Keys == s.perIn.Keys;
    if beat.Requested? {
      assert t.levels[beat.level].fifos.Keys == s.levels[beat.level].fifos.Keys;
      assert t.perLimit.Keys == s.perLimit.Keys;
    }
  }

  /** A whole event: `Reacquired` does not pop, the other two pop once. */
  function Step<B>(s: Sched<B>, beat: Beat<B>): (Sched<B>, Option<Grant<B>>)
    requires Wf(s) && Known(s, beat)
  {
    BeforePopIsWf(s, beat);
    if beat.Reacquired? then (BeforePop(s, beat), None) else Pop(BeforePop(s, beat))
  }

  lemma StepIsWf<B>(s: Sched<B>, beat: Beat<B>)
    requires Wf(s) && Known(s, beat)
    ensures Wf(Step(s, beat).0) && Step(s, beat).0.perIn.Keys == s.perIn.Keys
  {
    BeforePopIsWf(s, beat);
    PopSound(BeforePop(s, beat));
  }

  // ----- work conservation -----

  /** Nothing queued could be granted. */
  ghost predicate Idle<B>(s: Sched<B>) {
    forall p: nat, e: Name :: !Grantable(s, p, e)
  }

  predicate NotRaised<B>(s: Sched<B>, beat: Beat<B>)
    requires Known(s, beat)
  {
    beat.Requested? ==>
      && (beat.limit.Some? ==> beat.endpoint in s.perLimit && beat.limit.value <= s.perLimit[beat.endpoint])
      && (beat.globalLimit.Some? ==> beat.globalLimit.value <= s.globalLimit)
  }

  /** How many requests are queued for `e`, over all priorities. */
  function Waiting<B>(s: Sched<B>, e: Name): nat
    requires Wf(s) && e in s.perIn
  {
    |s.levels[0].fifos[e]| + |s.levels[1].fifos[e]| + |s.levels[2].fifos[e]|
  }

  /** Some request of `e` waits and the endpoint's limit lets it through. */
  predicate HasRoom<B>(s: Sched<B>, e: Name)
    requires Wf(s)
  {
    e in s.perIn && Waiting(s, e) > 0 && s.perIn[e] < s.perLimit[e]
  }

  /** Two requests of `e` wait and the endpoint's limit lets both through. */
  predicate HasRoomTwice<B>(s: Sched<B>, e: Name)
    requires Wf(s)
  {
    e in s.perIn && Waiting(s, e) > 1 && s.perIn[e] + 1 < s.perLimit[e]
  }

  /** At most one request could be granted here: the total leaves room for one, or only one endpoint has a request
      it could grant, and only one of them. */
  ghost predicate OneGrantIsEnough<B>(s: Sched<B>)
    requires Wf(s)
  {
    || s.inFlight + 1 >= s.globalLimit
    || ((forall e, f :: HasRoom(s, e) && HasRoom(s, f) ==> e == f) && (forall e :: !HasRoomTwice(s, e)))
  }

  lemma SomeLevelWaits<B>(s: Sched<B>, e: Name)
    requires Wf(s) && e in s.perIn
    ensures Waiting(s, e) > 0 <==> exists q: nat :: q < PRIORITY_COUNT && s.levels[q].fifos[e] != []
  {
    assert s.levels[0].fifos[e] != [] || s.levels[1].fifos[e] != [] || s.levels[2].fifos[e] != [] || Waiting(s, e) == 0;
  }

  lemma GrantableIffRoom<B>(s: Sched<B>, e: Name)
    requires Wf(s)
    ensures (exists p: nat :: Grantable(s, p, e)) <==> s.inFlight < s.globalLimit && HasRoom(s, e)
  {
    if e in s.perIn {
      SomeLevelWaits(s, e);
      if s.inFlight < s.globalLimit && HasRoom(s, e) {
        var q: nat :| q < PRIORITY_COUNT && s.levels[q].fifos[e] != [];
        assert Grantable(s, q, e);
      }
    }
  }

  /** Level by level or endpoint by endpoint, it is the same. */
  lemma IdleIffNoRoom<B>(s: Sched<B>)
    requires Wf(s)
    ensures Idle(s) <==> s.inFlight >= s.globalLimit || forall e :: !HasRoom(s, e)
  {
    hide Wf, Grantable, HasRoom;
    if Idle(s) {
      forall e ensures !(s.inFlight < s.globalLimit && HasRoom(s, e)) {
        GrantableIffRoom(s, e);
      }
    } else {
      var p: nat, e :| Grantable(s, p, e);
      GrantableIffRoom(s, e);
    }
  }

  lemma GrantTakesOne<B>(t: Sched<B>, u: Sched<B>, g: Grant<B>, e: Name)
    requires Wf(t) && Wf(u) && GrantedHead(t, u, g) && e in t.perIn
    ensures u.perIn.Keys == t.perIn.Keys && g.endpoint in t.perIn
    ensures Waiting(u, e) == Waiting(t, e) - (if e == g.endpoint then 1 else 0)
    ensures u.perIn[e] == t.perIn[e] + (if e == g.endpoint then 1 else 0) && u.perLimit == t.perLimit
  {
  }

  /** What can still be granted after one grant. */
  lemma AfterGrant<B>(t: Sched<B>, u: Sched<B>, g: Grant<B>)
    requires Wf(t) && Wf(u) && GrantedHead(t, u, g)
    ensures HasRoom(t, g.endpoint) && t.inFlight < t.globalLimit
    ensures Idle(u) <==> OneGrantIsEnough(t)
  {
    hide Wf, Waiting, Grantable, Idle;
    GrantableIffRoom(t, g.endpoint) by {
      assert Grantable(t, g.level, g.endpoint);
    }
    assert exists p: nat :: Grantable(t, p, g.endpoint) by {
      assert Grantable(t, g.level, g.endpoint);
    }
    IdleIffNoRoom(u);
    forall e
      ensures HasRoom(u, e) <==> if e == g.endpoint then HasRoomTwice(t, e) else HasRoom(t, e)
      ensures HasRoomTwice(t, e) ==> HasRoom(t, e)
    {
      RoomAfterGrant(t, u, g, e);
    }
  }

  lemma RoomAfterGrant<B>(t: Sched<B>, u: Sched<B>, g: Grant<B>, e: Name)
    requires Wf(t) && Wf(u) && GrantedHead(t, u, g)
    ensures HasRoom(u, e) <==> if e == g.endpoint then HasRoomTwice(t, e) else HasRoom(t, e)
    ensures HasRoomTwice(t, e) ==> HasRoom(t, e)
  {
    if e in t.perIn {
      GrantTakesOne(t, u, g, e);
    }
  }

  /** One pop leaves nothing grantable exactly when at most one request could be granted before it. */
  lemma OnePopSettlesIff<B>(t: Sched<B>)
    requires Wf(t)
    ensures Wf(Pop(t).0) && (Idle(Pop(t).0) <==> OneGrantIsEnough(t))
  {
    hide Wf, Pop, Waiting, Grantable, Idle;
    PopSound(t);
    var (u, r) := Pop(t);
    match r
    case Some(g) => AfterGrant(t, u, g);
    case None => FailedPopIsIdle(t);
  }

  lemma FailedPopIsIdle<B>(t: Sched<B>)
    requires Wf(t) && Pop(t).1.None?
    ensures Idle(Pop(t).0) && OneGrantIsEnough(t)
  {
    hide Wf, Pop, HasRoom, HasRoomTwice;
    PopSound(t);
    PopNoneIffNothingGrantable(t);
    forall p: nat, e: Name ensures !Grantable(Pop(t).0, p, e) {
      assert !Grantable(t, p, e);
    }
    IdleIffNoRoom(t);
    forall e ensures HasRoomTwice(t, e) ==> HasRoom(t, e) {
      TwiceIsOnce(t, e);
    }
  }

  lemma TwiceIsOnce<B>(t: Sched<B>, e: Name)
    requires Wf(t)
    ensures HasRoomTwice(t, e) ==> HasRoom(t, e)
  {
  }

  /** Every event that pops, with any change of limits and from any state, leaves nothing grantable exactly when at
      most one request could be granted right before its pop. */
  lemma StepSettlesIff<B>(s: Sched<B>, beat: Beat<B>)
    requires Wf(s) && Known(s, beat) && !beat.Reacquired?
    ensures Wf(BeforePop(s, beat))
    ensures Idle(Step(s, beat).0) <==> OneGrantIsEnough(BeforePop(s, beat))
  {
    hide Wf, Pop, BeforePop, OneGrantIsEnough, Idle;
    BeforePopIsWf(s, beat);
    OnePopSettlesIff(BeforePop(s, beat));
  }

  lemma PushAt<B>(s: Sched<B>, b: B, e: Name, p: nat, f: Name)
    requires Wf(s) && p < PRIORITY_COUNT && e in s.perIn && f in s.perIn
    ensures Wf(Push(s, b, e, p)) && Waiting(Push(s, b, e, p), f) == Waiting(s, f) + (if f == e then 1 else 0)
  {
    assert Push(s, b, e, p).levels[p].fifos.Keys == s.levels[p].fifos.Keys;
  }

  lemma LimitsAt<B>(s: Sched<B>, e: Name, limit: Option<int>, globalLimit: Option<int>, f: Name)
    requires Wf(s) && e in s.perIn && f in s.perIn
    ensures var t := WithLimits(s, e, limit, globalLimit);
      && Wf(t) && t.perIn == s.perIn && Waiting(t, f) == Waiting(s, f)
      && t.perLimit[f] == (if limit.Some? && f == e then limit.value else s.perLimit[f])
  {
    assert WithLimits(s, e, limit, globalLimit).perLimit.Keys == s.perLimit.Keys;
  }

  /** One endpoint right before the pop. */
  lemma BeforePopAt<B>(s: Sched<B>, beat: Beat<B>, e: Name)
    requires Wf(s) && Known(s, beat) && Wf(BeforePop(s, beat)) && e in s.perIn
    ensures var t := BeforePop(s, beat);
      && e in t.perIn && t.perIn.Keys == s.perIn.Keys
      && Waiting(t, e) == Waiting(s, e) + (if beat.Requested? && e == beat.endpoint then 1 else 0)
      && t.perIn[e] == s.perIn[e] + (if e != beat.endpoint || beat.Requested? then 0 else if beat.Released? then -1 else 1)
      && t.perLimit[e] == (if beat.Requested? && beat.limit.Some? && e == beat.endpoint then beat.limit.value else s.perLimit[e])
  {
    BeforePopIsWf(s, beat);
    hide Wf;
    match beat
    case Requested(b, f, p, limit, globalLimit) =>
      hide Waiting, WithLimits;
      LimitsAt(s, f, limit, globalLimit, e);
      PushAt(WithLimits(s, f, limit, globalLimit), b, f, p, e) by {
        LimitsAt(s, f, limit, globalLimit, f);
      }
    case Released(f) => SameWaiting(s, BeforePop(s, beat), e);
    case Reacquired(f) => SameWaiting(s, BeforePop(s, beat), e);
  }

  lemma SameWaiting<B>(s: Sched<B>, t: Sched<B>, e: Name)
    requires Wf(s) && Wf(t) && s.levels == t.levels && e in s.perIn && e in t.perIn
    ensures Waiting(s, e) == Waiting(t, e)
  {
  }

  lemma BeforePopKeys<B>(s: Sched<B>, beat: Beat<B>)
    requires Wf(s) && Known(s, beat)
    ensures BeforePop(s, beat).perIn.Keys == s.perIn.Keys
  {
    BeforePopIsWf(s, beat);
  }

  /** What a push or a decrement changes for one endpoint. */
  lemma RoomBeforePop<B>(s: Sched<B>, beat: Beat<B>, e: Name)
    requires Wf(s) && Known(s, beat) && Wf(BeforePop(s, beat)) && !beat.Reacquired? && NotRaised(s, beat)
    requires !HasRoom(s, e)
    ensures !HasRoomTwice(BeforePop(s, beat), e)
    ensures HasRoom(BeforePop(s, beat), e) ==> e == beat.endpoint
  {
    hide Wf, Waiting, BeforePop;
    BeforePopKeys(s, beat);
    if e in s.perIn {
      BeforePopAt(s, beat, e);
    }
  }

  /** Work conservation: as long as limits are not raised, the single pop of each event leaves no
      queued request that could be granted. */
  lemma StepKeepsIdle<B>(s: Sched<B>, beat: Beat<B>)
    requires Wf(s) && Known(s, beat) && Idle(s) && NotRaised(s, beat)
    ensures Idle(Step(s, beat).0)
  {
    if beat.Reacquired? {
      BeforePopIsWf(s, beat);
      forall p: nat, e: Name ensures !Grantable(Step(s, beat).0, p, e) {
        assert !Grantable(s, p, e);
      }
    } else {
      NotRaisedIsEnough(s, beat);
      StepSettlesIff(s, beat);
    }
  }

  lemma NotRaisedIsEnough<B>(s: Sched<B>, beat: Beat<B>)
    requires Wf(s) && Known(s, beat) && Idle(s) && NotRaised(s, beat) && !beat.Reacquired?
    ensures Wf(BeforePop(s, beat)) && OneGrantIsEnough(BeforePop(s, beat))
  {
    hide Wf, Waiting, Idle, HasRoom, HasRoomTwice;
    BeforePopIsWf(s, beat);
    IdleIffNoRoom(s);
    if s.inFlight < s.globalLimit {
      hide BeforePop, NotRaised;
      forall e
        ensures !HasRoomTwice(BeforePop(s, beat), e)
        ensures HasRoom(BeforePop(s, beat), e) ==> e == beat.endpoint
      {
        RoomBeforePop(s, beat, e);
      }
    }
  }

  // ----- raised limits -----

  /** From an idle queue, a raised endpoint limit breaks work conservation exactly when it makes room for a second
      grant and there is a second request to grant. */
  lemma RaiseKeepsIdleIff<B>(s: Sched<B>, b: B, e: Name, level: nat, limit: int)
    requires Wf(s) && Idle(s) && e in s.perIn && level < PRIORITY_COUNT && limit >= s.perLimit[e]
    ensures Known(s, Requested(b, e, level, Some(limit), None))
    ensures Idle(Step(s, Requested(b, e, level, Some(limit), None)).0) <==>
            Waiting(s, e) == 0 || s.perIn[e] + 1 >= limit || s.inFlight + 1 >= s.globalLimit
  {
    hide Wf, Pop, Idle;
    var beat := Requested(b, e, level, Some(limit), None);
    StepSettlesIff(s, beat);
    IdleIffNoRoom(s);
    var t := BeforePop(s, beat);
    if s.inFlight + 1 < s.globalLimit {
      forall f | f != e ensures !HasRoom(t, f) && !HasRoomTwice(t, f) {
        RaiseLeavesOthers(s, beat, f);
      }
      RaiseHelpsOne(s, beat);
    }
  }

  lemma RaiseLeavesOthers<B>(s: Sched<B>, beat: Beat<B>, f: Name)
    requires Wf(s) && Known(s, beat) && Wf(BeforePop(s, beat)) && beat.Requested? && f != beat.endpoint && !HasRoom(s, f)
    ensures !HasRoom(BeforePop(s, beat), f) && !HasRoomTwice(BeforePop(s, beat), f)
  {
    hide Wf, Waiting, BeforePop;
    BeforePopKeys(s, beat);
    if f in s.perIn {
      BeforePopAt(s, beat, f);
    }
  }

  lemma RaiseHelpsOne<B>(s: Sched<B>, beat: Beat<B>)
    requires Wf(s) && Known(s, beat) && Wf(BeforePop(s, beat)) && beat.Requested? && beat.limit.Some?
    ensures HasRoomTwice(BeforePop(s, beat), beat.endpoint) <==>
            Waiting(s, beat.endpoint) > 0 && s.perIn[beat.endpoint] + 1 < beat.limit.value
  {
    hide Wf, Waiting, BeforePop;
    BeforePopAt(s, beat, beat.endpoint);
  }

  /** A queue of one leaf endpoint with one credit out, its limit used up, and one request waiting. */
  function UsedUp<B>(e: Name, b: B): Sched<B> {
    var ring := Ring([e], map[e := 0]);
    var none: Level<B> := Level(ring, map[e := []], 0);
    Sched([Level(ring, map[e := [b]], 0), none, none], 0, 16, 1, 1, map[e := 1], map[e := 1])
  }

  /** A leaf's control law raises both limits with the next Credit Request: of the two requests one is granted, and
      the other stays although nothing holds it back. */
  lemma RaisedLimitsLeaveOne<B>(e: Name, b: B, c: B)
    ensures var s := UsedUp(e, b);
      var beat := Requested(c, e, 0, Some(4), Some(4));
      && Wf(s) && Idle(s) && Known(s, beat)
      && Grantable(Step(s, beat).0, 0, e)
  {
    var s := UsedUp(e, b);
    UsedUpIsWf(e, b);
    var beat := Requested(c, e, 0, Some(4), Some(4));
    StepSettlesIff(s, beat);
    StepIsWf(s, beat);
    assert HasRoomTwice(BeforePop(s, beat), e);
    OnlyOneCanBeLeft(s, beat, e, b, c);
  }

  lemma UsedUpIsWf<B>(e: Name, b: B)
    ensures Wf(UsedUp(e, b)) && Idle(UsedUp(e, b))
  {
    var s := UsedUp(e, b);
    forall p: nat | p < PRIORITY_COUNT ensures LevelWf(s.levels[p], s.perIn.Keys) {
      assert Placed(s.levels[p].ring, e);
    }
  }

  /** With one endpoint and all requests at one level, a grantable request is one of that level. */
  lemma OnlyOneCanBeLeft<B>(s: Sched<B>, beat: Beat<B>, e: Name, b: B, c: B)
    requires s == UsedUp(e, b) && Wf(s) && beat == Requested(c, e, 0, Some(4), Some(4))
    requires Wf(Step(s, beat).0) && !Idle(Step(s, beat).0)
    ensures Grantable(Step(s, beat).0, 0, e)
  {
    hide Pop, Idle;
    BeforePopIsWf(s, beat);
    var t := BeforePop(s, beat);
    PopSound(t);
    IdleIffNoRoom(Pop(t).0);
  }

  // ----- no wedge -----

  /** Counters that add up and are not negative, limits of at least one. */
  ghost predicate Sane<B>(s: Sched<B>) {
    && Wf(s)
    && s.inFlight == Sum(s.perIn)
    && (forall e :: e in s.perIn ==> s.perIn[e] >= 0)
    && s.globalLimit >= 1
    && (forall e :: e in s.perLimit ==> s.perLimit[e] >= 1)
  }

  predicate KeepsLimitsPositive<B>(beat: Beat<B>) {
    beat.Requested? ==> (beat.limit.Some? ==> beat.limit.value >= 1) && (beat.globalLimit.Some? ==> beat.globalLimit.value >= 1)
  }

  /** The event does not take back a credit that was never given. */
  predicate Covered<B>(s: Sched<B>, beat: Beat<B>)
    requires Known(s, beat)
  {
    beat.Released? ==> s.perIn[beat.endpoint] >= 1
  }

  /** A queued request implies a credit in flight. */
  ghost predicate Unwedged<B>(s: Sched<B>) {
    !NothingQueued(s) ==> s.inFlight >= 1
  }

  lemma {:induction false} BeforePopIsSane<B>(s: Sched<B>, beat: Beat<B>)
    requires Sane(s) && Known(s, beat) && KeepsLimitsPositive(beat) && Covered(s, beat)
    ensures Sane(BeforePop(s, beat))
  {
    BeforePopIsWf(s, beat);
    var e := beat.endpoint;
    SumUpdate(s.perIn, e, s.perIn[e] - 1);
    SumUpdate(s.perIn, e, s.perIn[e] + 1);
  }

  lemma GrantIsSane<B>(t: Sched<B>, u: Sched<B>, g: Grant<B>)
    requires Sane(t) && Wf(u) && GrantedHead(t, u, g)
    ensures Sane(u) && u.inFlight >= 1
  {
    SumNonNegative(t.perIn);
    SumUpdate(t.perIn, g.endpoint, t.perIn[g.endpoint] + 1);
  }

  /** When nothing is grantable, whatever is queued waits for a credit that is out. */
  lemma BlockedMeansInFlight<B>(t: Sched<B>)
    requires Sane(t) && Idle(t)
    ensures Unwedged(t)
  {
    SumNonNegative(t.perIn);
    if !NothingQueued(t) {
      var p :| 0 <= p < |t.levels| && !Empty(t.levels[p]);
      var e :| e in t.levels[p].fifos && t.levels[p].fifos[e] != [];
      assert !Grantable(t, p, e);
    }
  }

  lemma {:induction false} PopIsSaneAndUnwedged<B>(t: Sched<B>)
    requires Sane(t)
    ensures Sane(Pop(t).0) && Unwedged(Pop(t).0)
  {
    hide Pop, Wf, NothingQueued;
    PopSound(t);
    if Pop(t).1.Some? {
      GrantIsSane(t, Pop(t).0, Pop(t).1.value);
    } else {
      FailedPopIsIdle(t);
      BlockedMeansInFlight(Pop(t).0);
    }
  }

  /** No wedge, even when limits move: after every event a non-empty queue has a credit in flight. */
  lemma {:induction false} StepNoWedge<B>(s: Sched<B>, beat: Beat<B>)
    requires Sane(s) && Unwedged(s) && Known(s, beat) && KeepsLimitsPositive(beat) && Covered(s, beat)
    ensures Sane(Step(s, beat).0) && Unwedged(Step(s, beat).0)
  {
    BeforePopIsSane(s, beat);
    if beat.Reacquired? {
      SumNonNegative(s.perIn);
    } else {
      PopIsSaneAndUnwedged(BeforePop(s, beat));
    }
  }
}
