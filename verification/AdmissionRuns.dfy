/** Every interleaving of Acquire, release, cancellation, timeout and Replace on one
    pool.  A call is one invocation of Acquire together with its release function;
    an event is one critical section, or one branch of the `select` being taken. */
module AdmissionRuns {
  import opened AdmissionPool
  import opened Counting

  /** Where a call stands.  `Parked.limit` remembers the concurrency limit that turned the
      call away when it parked; the program does not store it. */
  datatype Phase =
    | NoLease
    | Queued(id: nat)
    | Parked(id: nat, generation: nat, limit: int)
    | Expired(id: nat)
    | Holding(id: nat)
    | Released(id: nat)
    | Failed(id: nat, error: Error)

  datatype Call = Call(request: Request, phase: Phase)

  datatype System = System(pool: View, calls: map<nat, Call>)

  datatype Event =
    | Arrive(c: nat, request: Request)
    | Retry(c: nat)
    | Wake(c: nat)
    | TimeOut(c: nat)
    | Cancel(c: nat)
    | Charge(c: nat)
    | Free(c: nat)
    | Swap(policies: seq<Policy>)

  const INITIAL := System(View(map[], []), map[])

  ghost predicate WellFormed(s: System) {
    && InRange(s.pool)
    && forall c :: c in s.calls && !s.calls[c].phase.NoLease? ==> s.calls[c].phase.id < |s.pool.arena|
  }

  /** The channel a parked call waits on has not been closed. */
  ghost predicate Open(s: System, c: nat)
    requires WellFormed(s) && c in s.calls && s.calls[c].phase.Parked?
  {
    var p := s.calls[c].phase;
    p.generation == s.pool.arena[p.id].notify
  }

  ghost predicate Enabled(s: System, e: Event)
    requires WellFormed(s)
  {
    match e
    case Arrive(c, _) => c !in s.calls
    case Retry(c) => c in s.calls && s.calls[c].phase.Queued?
    case Wake(c) => c in s.calls && s.calls[c].phase.Parked? && !Open(s, c)
    case TimeOut(c) => c in s.calls && s.calls[c].phase.Parked?
    case Cancel(c) => c in s.calls && s.calls[c].phase.Parked?
    case Charge(c) => c in s.calls && s.calls[c].phase.Expired?
    case Free(c) => c in s.calls && (var p := s.calls[c].phase; p.Holding? || p.Released? || p.NoLease?)
    case Swap(_) => true
  }

  function After(v: View, id: nat, verdict: Verdict): Phase
    requires verdict.Wait? ==> id < |v.arena|
  {
    match verdict
    case Unlimited => NoLease
    case Refused(error) => Failed(id, error)
    case Admitted => Holding(id)
    case Enqueued => Queued(id)
    case Wait(g) => Parked(id, g, v.arena[id].policy.maxConcurrency)
  }

  function Moved(s: System, c: nat, pool: View, phase: Phase): System
    requires c in s.calls
  {
    System(pool, s.calls[c := s.calls[c].(phase := phase)])
  }

  ghost function Step(s: System, e: Event): System
    requires WellFormed(s) && Enabled(s, e)
  {
    match e
    case Arrive(c, r) =>
      var (pool, verdict) := Enter(s.pool, r);
      var phase := if verdict.Unlimited? then NoLease else After(s.pool, s.pool.states[r.key], verdict);
      System(pool, s.calls[c := Call(r, phase)])
    case Retry(c) =>
      var (pool, verdict) := Recheck(s.pool, s.calls[c].request.key, s.calls[c].phase.id);
      Moved(s, c, pool, After(s.pool, s.calls[c].phase.id, verdict))
    case Wake(c) => Moved(s, c, s.pool, Queued(s.calls[c].phase.id))
    case TimeOut(c) =>
      var id := s.calls[c].phase.id;
      Moved(s, c, RemoveWaiter(s.pool, id), Expired(id))
    case Cancel(c) =>
      var id := s.calls[c].phase.id;
      Moved(s, c, RemoveWaiter(s.pool, id), Failed(id, ErrCancelled))
    case Charge(c) =>
      var id := s.calls[c].phase.id;
      Moved(s, c, CountTimeout(s.pool, id), Failed(id, ErrQueueTimeout))
    case Free(c) =>
      if !s.calls[c].phase.Holding? then s else
        var id := s.calls[c].phase.id;
        Moved(s, c, AdmissionPool.Release(s.pool, id), Released(id))
    case Swap(policies) => s.(pool := Publish(s.pool, policies))
  }

  ghost predicate Follows(s: System, e: Event, t: System) {
    WellFormed(s) && Enabled(s, e) && t == Step(s, e)
  }

  ghost predicate IsRun(states: seq<System>, events: seq<Event>) {
    && |states| == |events| + 1
    && states[0] == INITIAL
    && forall i {:trigger events[i]} :: 0 <= i < |events| ==> Follows(states[i], events[i], states[i + 1])
  }

  // ----- The invariant

  datatype Bucket = Leases | Waiters | Rejections | Timeouts

  ghost function Amount(e: Endpoint, b: Bucket): int {
    match b
    case Leases => e.active
    case Waiters => e.waiting
    case Rejections => e.rejected
    case Timeouts => e.queueTimeouts
  }

  ghost predicate In(call: Call, b: Bucket, id: nat) {
    && !call.phase.NoLease?
    && call.phase.id == id
    && match b
       case Leases => call.phase.Holding?
       case Waiters => call.phase.Queued? || call.phase.Parked?
       case Rejections => call.phase.Failed? && !call.phase.error.ErrCancelled?
       case Timeouts => call.phase.Failed? && call.phase.error.ErrQueueTimeout?
  }

  ghost function Is(b: Bucket, id: nat): Call -> bool {
    call => In(call, b, id)
  }

  /** Each counter of each state object equals the number of calls it stands for. */
  ghost predicate Balanced(s: System) {
    forall id, b :: 0 <= id < |s.pool.arena| ==> Amount(s.pool.arena[id], b) == Count(s.calls, Is(b, id))
  }

  /** A queued call belongs to the state of its key.  While the generation a call parked
      on stays open, no lease of that state has been released since. */
  ghost predicate Placed(v: View, call: Call) {
    && (!call.phase.NoLease? ==> call.phase.id < |v.arena|)
    && (call.phase.Queued? || call.phase.Parked? ==> call.request.key == v.arena[call.phase.id].policy.key)
    && (call.phase.Parked? ==>
          && call.phase.generation <= v.arena[call.phase.id].notify
          && (call.phase.generation == v.arena[call.phase.id].notify ==>
                v.arena[call.phase.id].active >= call.phase.limit))
  }

  ghost predicate Inv(s: System) {
    && KeysOwned(s.pool)
    && (forall id :: 0 <= id < |s.pool.arena| ==> Accepted(s.pool.arena[id].policy))
    && (forall c :: c in s.calls ==> Placed(s.pool, s.calls[c]))
    && Balanced(s)
  }

  /** One call changes bucket and its state's counters change with it. */
  lemma BalancedMove(s: System, c: nat, call: Call, id: nat, e: Endpoint)
    requires Balanced(s) && id < |s.pool.arena|
    requires !call.phase.NoLease? ==> call.phase.id == id
    requires c in s.calls && !s.calls[c].phase.NoLease? ==> s.calls[c].phase.id == id
    requires forall b :: Amount(e, b) == Amount(s.pool.arena[id], b)
                                         - One(c in s.calls && In(s.calls[c], b, id)) + One(In(call, b, id))
    ensures Balanced(System(With(s.pool, id, e), s.calls[c := call]))
  {
    forall j, b | 0 <= j < |s.pool.arena|
      ensures Amount(With(s.pool, id, e).arena[j], b) == Count(s.calls[c := call], Is(b, j))
    {
      CountUpdate(s.calls, c, call, Is(b, j));
    }
  }

  /** A call that holds nothing on any state joins or leaves without moving a counter. */
  lemma BalancedAside(s: System, c: nat, call: Call)
    requires Balanced(s)
    requires forall b, id :: (c in s.calls && In(s.calls[c], b, id)) == In(call, b, id)
    ensures Balanced(System(s.pool, s.calls[c := call]))
  {
    forall j, b | 0 <= j < |s.pool.arena|
      ensures Amount(s.pool.arena[j], b) == Count(s.calls[c := call], Is(b, j))
    {
      CountUpdate(s.calls, c, call, Is(b, j));
    }
  }

  /** One call and its state change together; the state keeps its policy, and gets no closer to
      admitting unless it closes its channel. */
  lemma MoveInv(s: System, c: nat, call: Call, id: nat, e: Endpoint)
    requires Inv(s) && id < |s.pool.arena|
    requires e.policy == s.pool.arena[id].policy && e.notify >= s.pool.arena[id].notify
    requires e.notify == s.pool.arena[id].notify ==> e.active >= s.pool.arena[id].active
    requires Placed(With(s.pool, id, e), call) && (!call.phase.NoLease? ==> call.phase.id == id)
    requires c in s.calls && !s.calls[c].phase.NoLease? ==> s.calls[c].phase.id == id
    requires forall b :: Amount(e, b) == Amount(s.pool.arena[id], b)
                                         - One(c in s.calls && In(s.calls[c], b, id)) + One(In(call, b, id))
    ensures Inv(System(With(s.pool, id, e), s.calls[c := call]))
  {
    BalancedMove(s, c, call, id, e);
  }

  lemma BucketHolds(s: System, c: nat, b: Bucket)
    requires Inv(s) && c in s.calls && !s.calls[c].phase.NoLease? && In(s.calls[c], b, s.calls[c].phase.id)
    ensures Amount(s.pool.arena[s.calls[c].phase.id], b) > 0
  {
    CountPositive(s.calls, Is(b, s.calls[c].phase.id));
  }

  lemma SwapInv(s: System, policies: seq<Policy>)
    requires Inv(s)
    ensures Inv(s.(pool := Publish(s.pool, policies)))
  {
    PublishMeaning(s.pool, policies);
    var t := s.(pool := Publish(s.pool, policies));
    forall id, b | 0 <= id < |t.pool.arena| ensures Amount(t.pool.arena[id], b) == Count(t.calls, Is(b, id)) {
      if id >= |s.pool.arena| {
        CountPositive(t.calls, Is(b, id));
      }
    }
  }

  /** A call that meets an enabled state either takes a lease, joins the queue or is refused,
      and the state counts it accordingly. */
  lemma ArriveEffect(s: System, c: nat, r: Request)
    requires WellFormed(s) && KeysOwned(s.pool) && c !in s.calls && !Enter(s.pool, r).1.Unlimited?
    ensures var t, id := Step(s, Arrive(c, r)), s.pool.states[r.key];
            && id < |t.pool.arena|
            && t == System(With(s.pool, id, t.pool.arena[id]), s.calls[c := t.calls[c]])
            && var before, e, call := s.pool.arena[id], t.pool.arena[id], t.calls[c];
               && e.policy == before.policy && e.notify == before.notify && e.active >= before.active
               && !call.phase.NoLease? && call.phase.id == id && Placed(t.pool, call)
               && forall b :: Amount(e, b) == Amount(before, b) + One(In(call, b, id))
  {
  }

  lemma ArriveInv(s: System, c: nat, r: Request)
    requires Inv(s) && c !in s.calls
    ensures Inv(Step(s, Arrive(c, r)))
  {
    var t := Step(s, Arrive(c, r));
    if Enter(s.pool, r).1.Unlimited? {
      BalancedAside(s, c, t.calls[c]);
    } else {
      var id := s.pool.states[r.key];
      ArriveEffect(s, c, r);
      MoveInv(s, c, t.calls[c], id, t.pool.arena[id]);
    }
  }

  lemma RetryInv(s: System, c: nat)
    requires Inv(s) && c in s.calls && s.calls[c].phase.Queued?
    ensures Inv(Step(s, Retry(c)))
  {
    var id := s.calls[c].phase.id;
    var t := Step(s, Retry(c));
    if t.pool == s.pool {
      BalancedAside(s, c, t.calls[c]);
    } else {
      MoveInv(s, c, t.calls[c], id, t.pool.arena[id]);
    }
  }

  lemma WakeInv(s: System, c: nat)
    requires Inv(s) && Enabled(s, Wake(c))
    ensures Inv(Step(s, Wake(c)))
  {
    BalancedAside(s, c, Step(s, Wake(c)).calls[c]);
  }

  lemma ChargeInv(s: System, c: nat)
    requires Inv(s) && Enabled(s, Charge(c))
    ensures Inv(Step(s, Charge(c)))
  {
    var id, t := s.calls[c].phase.id, Step(s, Charge(c));
    MoveInv(s, c, t.calls[c], id, t.pool.arena[id]);
  }

  lemma FreeInv(s: System, c: nat)
    requires Inv(s) && Enabled(s, Free(c))
    ensures Inv(Step(s, Free(c)))
  {
    if s.calls[c].phase.Holding? {
      var id, t := s.calls[c].phase.id, Step(s, Free(c));
      BucketHolds(s, c, Leases);
      MoveInv(s, c, t.calls[c], id, t.pool.arena[id]);
    }
  }

  lemma DropInv(s: System, c: nat, e: Event)
    requires Inv(s) && (e == TimeOut(c) || e == Cancel(c)) && Enabled(s, e)
    ensures Inv(Step(s, e))
  {
    var id := s.calls[c].phase.id;
    BucketHolds(s, c, Waiters);
    MoveInv(s, c, Step(s, e).calls[c], id, Step(s, e).pool.arena[id]);
  }

  lemma {:induction false} StepInv(s: System, e: Event)
    requires Inv(s) && Enabled(s, e)
    ensures Inv(Step(s, e))
  {
    match e
    case Arrive(c, r) => ArriveInv(s, c, r);
    case Retry(c) => RetryInv(s, c);
    case Wake(c) => WakeInv(s, c);
    case TimeOut(c) => DropInv(s, c, e);
    case Cancel(c) => DropInv(s, c, e);
    case Charge(c) => ChargeInv(s, c);
    case Free(c) => FreeInv(s, c);
    case Swap(policies) => SwapInv(s, policies);
  }

  lemma {:induction false} RunInv(states: seq<System>, events: seq<Event>, i: nat)
    requires IsRun(states, events) && i < |states|
    ensures Inv(states[i])
  {
    if i > 0 {
      RunInv(states, events, i - 1);
      assert Follows(states[i - 1], events[i - 1], states[i - 1 + 1]);
      StepInv(states[i - 1], events[i - 1]);
    }
  }

  // ----- Who is refused

  /** The reasons a call can be refused for on arrival. */
  ghost predicate AtTheDoor(error: Error) {
    error.ErrRequestSize? || error.ErrOutputLimit? || error.ErrPriority? || error.ErrConcurrency?
  }

  /** Under the policies in force the request has this fault, and none that is looked for earlier. */
  ghost predicate TurnsAway(v: View, r: Request, id: nat, error: Error) {
    && r.key in v.states && v.states[r.key] == id < |v.arena| && v.arena[id].policy.enabled
    && var e := v.arena[id];
       var small, short := r.requestBytes <= e.policy.maxRequestBytes, r.outputTokens <= e.policy.maxOutputTokens;
       var priority := if r.priority == "" then "normal" else r.priority;
       var welcome := small && short && priority in e.policy.allowedPriorities;
       match error
       case ErrRequestSize => !small
       case ErrOutputLimit => small && !short
       case ErrPriority => small && short && !welcome
       case ErrConcurrency => welcome && e.active >= e.policy.maxConcurrency && e.waiting >= e.policy.maxQueueDepth
       case _ => false
  }

  lemma ArrivalRefused(s: System, c: nat, r: Request, t: System, id: nat, error: Error)
    requires Follows(s, Arrive(c, r), t) && AtTheDoor(error)
    ensures c in t.calls && (t.calls[c].phase == Failed(id, error) <==> TurnsAway(s.pool, r, id, error))
  {
    EnterOutcome(s.pool, r);
  }

  /** After its arrival no call is refused at the door, and no refusal is taken back. */
  lemma RefusalStays(s: System, e: Event, t: System, c: nat, id: nat, error: Error)
    requires Follows(s, e, t) && c in s.calls && AtTheDoor(error)
    ensures c in t.calls && (t.calls[c].phase == Failed(id, error) <==> s.calls[c].phase == Failed(id, error))
  {
  }

  /** In every run a call stands refused for a reason exactly when the policy in force at its
      arrival, and the load at that moment, gave that reason, whatever happens later. */
  lemma {:induction false} RefusedIffTurnedAway(states: seq<System>, events: seq<Event>, m: nat, i: nat, id: nat,
                                                error: Error)
    requires IsRun(states, events) && m < i < |states| && events[m].Arrive? && AtTheDoor(error)
    ensures events[m].c in states[i].calls
    ensures states[i].calls[events[m].c].phase == Failed(id, error) <==>
            TurnsAway(states[m].pool, events[m].request, id, error)
    decreases i
  {
    if i == m + 1 {
      ArrivalRefused(states[m], events[m].c, events[m].request, states[m + 1], id, error);
    } else {
      RefusedIffTurnedAway(states, events, m, i - 1, id, error);
      RefusalStays(states[i - 1], events[i - 1], states[i - 1 + 1], events[m].c, id, error);
    }
  }

  // ----- Conservation over whole runs

  ghost function Leaseholders(s: System, id: nat): set<nat> {
    set c | c in s.calls && s.calls[c].phase == Holding(id)
  }

  ghost function QueuedCalls(s: System, id: nat): set<nat> {
    set c | c in s.calls && (s.calls[c].phase.Queued? || s.calls[c].phase.Parked?) && s.calls[c].phase.id == id
  }

  ghost function RefusedCalls(s: System, id: nat): set<nat> {
    set c | c in s.calls && s.calls[c].phase.Failed? && s.calls[c].phase.id == id
            && s.calls[c].phase.error != ErrCancelled
  }

  ghost function TimedOutCalls(s: System, id: nat): set<nat> {
    set c | c in s.calls && s.calls[c].phase == Failed(id, ErrQueueTimeout)
  }

  /** In every state of every run each counter of each state object is exactly the number of
      calls it stands for: leases not yet released, calls still queued, refused or timed-out
      calls, timed-out calls. */
  lemma Conservation(states: seq<System>, events: seq<Event>, i: nat, id: nat)
    requires IsRun(states, events) && i < |states| && id < |states[i].pool.arena|
    ensures states[i].pool.arena[id].active == |Leaseholders(states[i], id)|
    ensures states[i].pool.arena[id].waiting == |QueuedCalls(states[i], id)|
    ensures states[i].pool.arena[id].rejected == |RefusedCalls(states[i], id)|
    ensures states[i].pool.arena[id].queueTimeouts == |TimedOutCalls(states[i], id)|
    ensures states[i].pool.arena[id].queueTimeouts <= states[i].pool.arena[id].rejected
  {
    RunInv(states, events, i);
    var e, calls := states[i].pool.arena[id], states[i].calls;
    assert Amount(e, Leases) == Count(calls, Is(Leases, id));
    assert Amount(e, Waiters) == Count(calls, Is(Waiters, id));
    assert Amount(e, Rejections) == Count(calls, Is(Rejections, id));
    assert Amount(e, Timeouts) == Count(calls, Is(Timeouts, id));
    assert Members(calls, Is(Leases, id)) == Leaseholders(states[i], id);
    assert Members(calls, Is(Waiters, id)) == QueuedCalls(states[i], id);
    assert Members(calls, Is(Rejections, id)) == RefusedCalls(states[i], id);
    assert Members(calls, Is(Timeouts, id)) == TimedOutCalls(states[i], id);
    CountMonotone(calls, Is(Timeouts, id), Is(Rejections, id));
  }

  /** The `> 0` guards of release and removeWaiter never take their false branch, and the
      unguarded decrements of the waiting loop never go below zero. */
  lemma GuardsAlwaysHold(states: seq<System>, events: seq<Event>, i: nat)
    requires IsRun(states, events) && i < |events|
    requires !events[i].Swap? && events[i].c in states[i].calls && !states[i].calls[events[i].c].phase.NoLease?
    ensures var e, s := events[i], states[i];
            var phase := s.calls[e.c].phase;
            && phase.id < |s.pool.arena|
            && (e.Free? && phase.Holding? ==> s.pool.arena[phase.id].active > 0)
            && (e.TimeOut? || e.Cancel? || e.Retry? ==> s.pool.arena[phase.id].waiting > 0)
  {
    RunInv(states, events, i);
    var e, s := events[i], states[i];
    assert Follows(s, e, states[i + 1]);
    if e.Free? && s.calls[e.c].phase.Holding? {
      BucketHolds(s, e.c, Leases);
    } else if e.TimeOut? || e.Cancel? || e.Retry? {
      BucketHolds(s, e.c, Waiters);
    }
  }

  // ----- Bounds while policies change

  lemma StepPressure(s: System, e: Event, id: nat)
    requires Inv(s) && Enabled(s, e) && id < |s.pool.arena|
    ensures var t := Step(s, e);
            && id < |t.pool.arena|
            && var before, after := s.pool.arena[id], t.pool.arena[id];
               && (after.active > before.active ==>
                     before.active < before.policy.maxConcurrency
                       && after == before.(active := before.active + 1, waiting := after.waiting))
               && (after.waiting > before.waiting ==>
                     before.waiting < before.policy.maxQueueDepth && after == before.(waiting := before.waiting + 1))
  {
    if e.Swap? {
      PublishMeaning(s.pool, e.policies);
    }
  }

  ghost predicate Published(s: System, id: nat, active: int, waiting: int) {
    && id < |s.pool.arena|
    && s.pool.arena[id].policy.maxConcurrency >= active && s.pool.arena[id].policy.maxQueueDepth >= waiting
  }

  lemma FreshIsIdle(s: System, e: Event, id: nat)
    requires Inv(s) && Enabled(s, e) && |s.pool.arena| <= id < |Step(s, e).pool.arena|
    ensures Step(s, e).pool.arena[id].active == Step(s, e).pool.arena[id].waiting == 0
    ensures Accepted(Step(s, e).pool.arena[id].policy)
  {
    if e.Swap? {
      PublishMeaning(s.pool, e.policies);
    }
  }

  /** A state object never carries more leases than the largest concurrency limit published
      for it so far, nor more waiters than the largest queue depth published for it so far. */
  lemma {:induction false} PressureWithinPublished(states: seq<System>, events: seq<Event>, i: nat, id: nat)
    requires IsRun(states, events) && i < |states| && id < |states[i].pool.arena|
    ensures exists j :: 0 <= j <= i && Published(states[j], id, states[i].pool.arena[id].active, 0)
    ensures exists j :: 0 <= j <= i && Published(states[j], id, 0, states[i].pool.arena[id].waiting)
  {
    RunInv(states, events, i);
    if i > 0 {
      var s, e, t := states[i - 1], events[i - 1], states[i];
      RunInv(states, events, i - 1);
      assert Follows(s, e, states[i - 1 + 1]);
      if id >= |s.pool.arena| {
        FreshIsIdle(s, e, id);
        assert Published(states[i], id, t.pool.arena[id].active, 0);
        assert Published(states[i], id, 0, t.pool.arena[id].waiting);
      } else {
        PressureWithinPublished(states, events, i - 1, id);
        StepPressure(s, e, id);
        var before, after := s.pool.arena[id], t.pool.arena[id];
        if after.active > before.active {
          assert Published(states[i - 1], id, after.active, 0);
        } else {
          var j :| 0 <= j <= i - 1 && Published(states[j], id, before.active, 0);
          assert Published(states[j], id, after.active, 0);
        }
        if after.waiting > before.waiting {
          assert Published(states[i - 1], id, 0, after.waiting);
        } else {
          var j :| 0 <= j <= i - 1 && Published(states[j], id, 0, before.waiting);
          assert Published(states[j], id, 0, after.waiting);
        }
      }
    }
  }

  ghost predicate LimitAtMost(s: System, id: nat, limit: int) {
    id < |s.pool.arena| && s.pool.arena[id].policy.maxConcurrency <= limit
  }

  /** Once the limit has been lowered to `limit`, the number of leases cannot rise until it is
      below it: it never exceeds both `limit` and what it was at the reduction. */
  lemma {:induction false} ReductionHolds(states: seq<System>, events: seq<Event>, i: nat, j: nat, id: nat, limit: int)
    requires IsRun(states, events) && i <= j < |states| && id < |states[i].pool.arena|
    requires forall k :: i <= k < j ==> LimitAtMost(states[k], id, limit)
    ensures id < |states[j].pool.arena|
    ensures states[j].pool.arena[id].active <= limit
            || states[j].pool.arena[id].active <= states[i].pool.arena[id].active
    decreases j
  {
    if i < j {
      ReductionHolds(states, events, i, j - 1, id, limit);
      RunInv(states, events, j - 1);
      assert Follows(states[j - 1], events[j - 1], states[j - 1 + 1]);
      assert LimitAtMost(states[j - 1], id, limit);
      StepPressure(states[j - 1], events[j - 1], id);
    }
  }

  // ----- Wake-ups

  /** A call waits on an open channel although the waiting loop, run now, would let it go. */
  ghost predicate Stranded(s: System, c: nat)
    requires WellFormed(s)
  {
    && c in s.calls
    && s.calls[c].phase.Parked?
    && Open(s, c)
    && !Recheck(s.pool, s.calls[c].request.key, s.calls[c].phase.id).1.Wait?
  }

  ghost predicate NoneStranded(s: System) {
    WellFormed(s) && forall c :: c in s.calls ==> !Stranded(s, c)
  }

  /** What a snapshot must do for every call that waits on an open channel: publish its key,
      enabled, with a limit the leases already use up. */
  ghost predicate Calm(s: System, policies: seq<Policy>)
    requires WellFormed(s)
  {
    forall c :: c in s.calls && s.calls[c].phase.Parked? && Open(s, c) ==>
      var p := Effective(policies, s.calls[c].request.key);
      p != [] && p[0].enabled && p[0].maxConcurrency <= s.pool.arena[s.calls[c].phase.id].active
  }

  /** The state of a parked call is named by its key, enabled, and has every slot of the
      remembered limit taken. */
  ghost predicate TurnedAway(v: View, call: Call) {
    && call.phase.Parked?
    && Named(v, call.phase.id) && call.request.key == v.arena[call.phase.id].policy.key
    && v.arena[call.phase.id].policy.enabled
    && v.arena[call.phase.id].active >= v.arena[call.phase.id].policy.maxConcurrency == call.phase.limit
  }

  ghost predicate Same(s: System, c: nat, call: Call) {
    c in s.calls && s.calls[c] == call
  }

  /** The call has been parked as it is now since the retry at `k`, which was turned away. */
  ghost predicate ParkedSince(states: seq<System>, events: seq<Event>, k: nat, i: nat, c: nat)
    requires IsRun(states, events) && i < |states|
  {
    && k < i && events[k] == Retry(c) && c in states[i].calls
    && (forall m :: k < m <= i ==> Same(states[m], c, states[i].calls[c]))
    && TurnedAway(states[k].pool, states[i].calls[c])
  }

  lemma ParksHere(s: System, e: Event, t: System, c: nat)
    requires Inv(s) && Follows(s, e, t) && c in t.calls && t.calls[c].phase.Parked?
    ensures Same(s, c, t.calls[c]) || (e == Retry(c) && TurnedAway(s.pool, t.calls[c]))
  {
    if e == Retry(c) {
      assert Placed(s.pool, s.calls[c]);
    }
  }

  /** Every parked call has such a moment. */
  lemma {:induction false} ParkMoment(states: seq<System>, events: seq<Event>, i: nat, c: nat) returns (k: nat)
    requires IsRun(states, events) && i < |states| && c in states[i].calls && states[i].calls[c].phase.Parked?
    ensures ParkedSince(states, events, k, i, c)
  {
    RunInv(states, events, i - 1);
    ParksHere(states[i - 1], events[i - 1], states[i - 1 + 1], c);
    if Same(states[i - 1], c, states[i].calls[c]) {
      k := ParkMoment(states, events, i - 1, c);
    } else {
      k := i - 1;
    }
  }

  /** A call is stranded only by a policy change after it parked: since that moment its state
      was removed or disabled, or its limit was raised above the one that turned it away. */
  lemma StrandedOnlyByReplace(states: seq<System>, events: seq<Event>, i: nat, c: nat) returns (k: nat)
    requires IsRun(states, events) && i < |states| && WellFormed(states[i]) && Stranded(states[i], c)
    ensures ParkedSince(states, events, k, i, c)
    ensures var now, before, id := states[i].pool, states[k].pool, states[i].calls[c].phase.id;
            || !Named(now, id)
            || !now.arena[id].policy.enabled
            || now.arena[id].policy.maxConcurrency > before.arena[id].policy.maxConcurrency
  {
    RunInv(states, events, i);
    k := ParkMoment(states, events, i, c);
    assert Placed(states[i].pool, states[i].calls[c]);
  }

  /** Replace strands nobody exactly when the snapshot is calm. */
  lemma ReplaceStrandsIff(s: System, policies: seq<Policy>)
    requires Inv(s) && NoneStranded(s)
    ensures NoneStranded(Step(s, Swap(policies))) <==> Calm(s, policies)
  {
    var t := Step(s, Swap(policies));
    PublishMeaning(s.pool, policies);
    SwapInv(s, policies);
    forall c | c in s.calls && s.calls[c].phase.Parked? && Open(s, c)
      ensures var p := Effective(policies, s.calls[c].request.key);
              !Stranded(t, c) <==>
              p != [] && p[0].enabled && p[0].maxConcurrency <= s.pool.arena[s.calls[c].phase.id].active
    {
      assert Placed(s.pool, s.calls[c]) && !Stranded(s, c);
      var id, k := s.calls[c].phase.id, s.calls[c].request.key;
      assert Bound(s.pool, policies, t.pool, k);
      assert Named(s.pool, id);
    }
    forall c | c in s.calls && s.calls[c].phase.Parked? && !Open(s, c) ensures !Stranded(t, c) {
      assert Placed(s.pool, s.calls[c]);
    }
  }

  /** Without a release, no event other than Replace takes a state closer to admitting. */
  lemma NoReleaseNoRoom(s: System, e: Event, id: nat)
    requires WellFormed(s) && Enabled(s, e) && !e.Swap? && id < |s.pool.arena|
    ensures var t := Step(s, e);
            && t.pool.states == s.pool.states
            && |t.pool.arena| == |s.pool.arena|
            && var before, after := s.pool.arena[id], t.pool.arena[id];
               && after.policy == before.policy
               && after.notify >= before.notify
               && (after.notify == before.notify ==> after.active >= before.active)
  {
  }

  /** A call that parks at this very step was turned away by the loop it just ran. */
  lemma ParksForGoodReason(s: System, e: Event, c: nat)
    requires Inv(s) && Enabled(s, e) && !e.Swap?
    requires var t := Step(s, e); c in t.calls && t.calls[c].phase.Parked?
    ensures (c in s.calls && s.calls[c] == Step(s, e).calls[c]) || (e == Retry(c) && Step(s, e).pool == s.pool)
  {
  }

  lemma StepStrandsNobody(s: System, e: Event)
    requires Inv(s) && NoneStranded(s) && Enabled(s, e)
    requires e.Swap? ==> Calm(s, e.policies)
    ensures NoneStranded(Step(s, e))
  {
    StepInv(s, e);
    var t := Step(s, e);
    if e.Swap? {
      ReplaceStrandsIff(s, e.policies);
    } else {
      forall c | c in t.calls && t.calls[c].phase.Parked? && Open(t, c) ensures !Stranded(t, c) {
        ParksForGoodReason(s, e, c);
        if c in s.calls && s.calls[c] == t.calls[c] {
          assert Placed(s.pool, s.calls[c]) && !Stranded(s, c);
          NoReleaseNoRoom(s, e, s.calls[c].phase.id);
        }
      }
    }
  }

  /** No lost wake-up: in every interleaving whose snapshots are all calm, a free slot
      leaves every queued call able to step, without help from its timer. */
  lemma {:induction false} NoLostWakeup(states: seq<System>, events: seq<Event>, i: nat)
    requires IsRun(states, events) && i < |states|
    requires forall k :: 0 <= k < i && events[k].Swap? ==> WellFormed(states[k]) && Calm(states[k], events[k].policies)
    ensures NoneStranded(states[i])
    ensures forall c, id :: 0 <= id < |states[i].pool.arena| && c in QueuedCalls(states[i], id)
                            && states[i].pool.arena[id].active < states[i].pool.arena[id].policy.maxConcurrency ==>
              Enabled(states[i], Retry(c)) || Enabled(states[i], Wake(c))
  {
    if i > 0 {
      NoLostWakeup(states, events, i - 1);
      RunInv(states, events, i - 1);
      assert Follows(states[i - 1], events[i - 1], states[i - 1 + 1]);
      StepStrandsNobody(states[i - 1], events[i - 1]);
    }
  }

  lemma ParkedUnlessFreed(s: System, e: Event, c: nat)
    requires WellFormed(s) && Enabled(s, e) && !e.Swap?
    requires c in s.calls && s.calls[c].phase.Parked? && Open(s, c)
    ensures var t, id := Step(s, e), s.calls[c].phase.id;
            && c in t.calls && id < |t.pool.arena|
            && (t.calls[c] == s.calls[c] <==> e != TimeOut(c) && e != Cancel(c))
            && (t.pool.arena[id].notify == s.pool.arena[id].notify <==> !(e.Free? && s.calls[e.c].phase == Holding(id)))
  {
  }

  /** Nothing but a release on its own state, its timer or its context moves a call that
      waits on an open channel; in particular no Replace does. */
  lemma ParkedUntilReleased(s: System, e: Event, c: nat)
    requires Inv(s) && Enabled(s, e)
    requires c in s.calls && s.calls[c].phase.Parked? && Open(s, c)
    ensures var t := Step(s, e);
            && WellFormed(t)
            && ((c in t.calls && t.calls[c] == s.calls[c] && Open(t, c)) <==>
                !(|| e == TimeOut(c) || e == Cancel(c)
                  || (e.Free? && s.calls[e.c].phase == Holding(s.calls[c].phase.id))))
  {
    StepInv(s, e);
    if e.Swap? {
      PublishMeaning(s.pool, e.policies);
    } else {
      ParkedUnlessFreed(s, e, c);
    }
  }

  /** Raising a limit strands a waiter: one lease, one parked call, then a second slot. */
  lemma StrandingRun() returns (states: seq<System>, events: seq<Event>)
    ensures IsRun(states, events) && WellFormed(states[|events|])
    ensures Stranded(states[|events|], 1)
  {
    var p := Policy("k", 1, 1, 1, 1, 1, {"normal"}, true);
    var q := p.(maxConcurrency := 2);
    var r := Request("k", "", 0, 0);
    events := [Swap([p]), Arrive(0, r), Arrive(1, r), Retry(1), Swap([q])];
    var s0 := INITIAL;
    PublishOne(s0.pool, p);
    var s1 := Step(s0, events[0]);
    assert s1.pool == View(map["k" := 0], [Endpoint(p, 0, 0, 0, 0, 0)]);
    var s2 := Step(s1, events[1]);
    var s3 := Step(s2, events[2]);
    assert s3.pool == View(map["k" := 0], [Endpoint(p, 1, 1, 0, 0, 0)]);
    var s4 := Step(s3, events[3]);
    assert s4.calls[1].phase == Parked(0, 0, 1);
    PublishOne(s4.pool, q);
    var s5 := Step(s4, events[4]);
    assert s5.pool == View(map["k" := 0], [Endpoint(q, 1, 1, 0, 0, 0)]);
    states := [s0, s1, s2, s3, s4, s5];
    forall i | 0 <= i < |events| ensures Follows(states[i], events[i], states[i + 1]) {
      assert i == 0 || i == 1 || i == 2 || i == 3 || i == 4;
    }
  }
}
