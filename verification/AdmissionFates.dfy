/** What becomes of a call: on arrival, in the queue, and at its end, over whole runs. */
module AdmissionFates {
  import opened AdmissionPool
  import opened AdmissionRuns

  // ----- Arrival

  /** The request breaks none of the policy's rules; no priority means "normal". */
  ghost predicate Welcome(p: Policy, r: Request) {
    && r.requestBytes <= p.maxRequestBytes
    && r.outputTokens <= p.maxOutputTokens
    && (if r.priority == "" then "normal" else r.priority) in p.allowedPriorities
  }

  ghost predicate Limited(v: View, r: Request)
    requires InRange(v)
  {
    r.key in v.states && v.arena[v.states[r.key]].policy.enabled
  }

  /** A call with no enabled policy goes through without a lease; any other takes a lease, joins
      the queue or is refused, by its request, the free slots and the free places in the queue. */
  lemma ArrivalExact(s: System, c: nat, r: Request, t: System)
    requires Follows(s, Arrive(c, r), t)
    ensures c in t.calls && t.calls[c].request == r
    ensures t.calls[c].phase == NoLease <==> !Limited(s.pool, r)
    ensures Limited(s.pool, r) ==>
              var id, phase := s.pool.states[r.key], t.calls[c].phase;
              var e := s.pool.arena[id];
              && (phase == Holding(id) <==> Welcome(e.policy, r) && e.active < e.policy.maxConcurrency)
              && (phase == Queued(id) <==>
                  Welcome(e.policy, r) && e.active >= e.policy.maxConcurrency && e.waiting < e.policy.maxQueueDepth)
              && (phase.Failed? <==>
                  !Welcome(e.policy, r) || (e.active >= e.policy.maxConcurrency && e.waiting >= e.policy.maxQueueDepth))
              && !phase.NoLease? && phase.id == id
  {
    EnterOutcome(s.pool, r);
  }

  // ----- The life of one call

  /** The state object is the one published for its key, and its policy is enabled. */
  ghost predicate Served(v: View, id: nat) {
    Named(v, id) && v.arena[id].policy.enabled
  }

  /** What a retry comes to: out of the pool's hands, a lease, or back to waiting on the channel
      as it is now. */
  ghost function Retried(v: View, id: nat): Phase
    requires id < |v.arena|
  {
    var e := v.arena[id];
    if !Served(v, id) then NoLease
    else if e.active < e.policy.maxConcurrency then Holding(id)
    else Parked(id, e.notify, e.policy.maxConcurrency)
  }

  /** What event `e` makes of call `c`: a queued call moves only by its own retry, a parked one
      only by waking, its timer or its context, and only a lease can be released. */
  ghost function NextPhase(v: View, c: nat, phase: Phase, e: Event): Phase
    requires phase.Queued? ==> phase.id < |v.arena|
  {
    match phase
    case Queued(id) => if e == Retry(c) then Retried(v, id) else phase
    case Parked(id, _, _) =>
      if e == Wake(c) then Queued(id)
      else if e == TimeOut(c) then Expired(id)
      else if e == Cancel(c) then Failed(id, ErrCancelled)
      else phase
    case Expired(id) => if e == Charge(c) then Failed(id, ErrQueueTimeout) else phase
    case Holding(id) => if e == Free(c) then Released(id) else phase
    case _ => phase
  }

  /** The pool moves every call exactly so. */
  lemma CallMoves(s: System, e: Event, t: System, c: nat)
    requires Inv(s) && Follows(s, e, t) && c in s.calls
    ensures c in t.calls
    ensures s.calls[c].phase.Queued? ==> s.calls[c].phase.id < |s.pool.arena|
    ensures t.calls[c] == s.calls[c].(phase := NextPhase(s.pool, c, s.calls[c].phase, e))
  {
    assert Placed(s.pool, s.calls[c]);
  }

  /** A retry that gets a lease takes the slot. */
  lemma LeaseTakesSlot(s: System, c: nat, t: System)
    requires Inv(s) && Follows(s, Retry(c), t)
    ensures var id := s.calls[c].phase.id;
            && id < |s.pool.arena| == |t.pool.arena|
            && (t.calls[c].phase == Holding(id) <==> t.pool.arena[id].active == s.pool.arena[id].active + 1)
            && (t.calls[c].phase.Parked? <==> t.pool.arena[id].waiting == s.pool.arena[id].waiting)
            && (!t.calls[c].phase.Parked? <==> t.pool.arena[id].waiting == s.pool.arena[id].waiting - 1)
  {
    assert Placed(s.pool, s.calls[c]);
  }

  ghost predicate Waits(s: System, c: nat, id: nat) {
    c in s.calls && (s.calls[c].phase.Queued? || s.calls[c].phase.Parked?) && s.calls[c].phase.id == id
  }

  /** Event `m` takes call `c` out of the queue of state `id`: into a lease, if the state serves
      its key and has a free slot; out of the pool's hands, if the state no longer does; by its
      timer; or by its context. */
  ghost predicate LeavesQueue(s: System, e: Event, t: System, c: nat, id: nat) {
    && Waits(s, c, id) && c in t.calls && id < |s.pool.arena|
    && match t.calls[c].phase
       case Holding(k) =>
         k == id && e == Retry(c) && Served(s.pool, id)
           && s.pool.arena[id].active < s.pool.arena[id].policy.maxConcurrency
       case NoLease => e == Retry(c) && !Served(s.pool, id)
       case Expired(k) => k == id && e == TimeOut(c)
       case Failed(k, error) => k == id && error == ErrCancelled && e == Cancel(c)
       case _ => false
  }

  lemma StaysOrLeaves(s: System, e: Event, t: System, c: nat, id: nat)
    requires Inv(s) && Follows(s, e, t) && Waits(s, c, id)
    ensures Waits(t, c, id) || LeavesQueue(s, e, t, c, id)
  {
    CallMoves(s, e, t, c);
    assert Placed(s.pool, s.calls[c]);
  }

  /** In every run a queued call stays in the queue of its state until one of those events,
      which is exhibited. */
  lemma {:induction false} QueueIsLeftBy(states: seq<System>, events: seq<Event>, i: nat, k: nat, c: nat, id: nat)
    returns (m: nat)
    requires IsRun(states, events) && i <= k < |states| && Waits(states[i], c, id)
    ensures i <= m <= k && Waits(states[m], c, id)
    ensures m < k ==> LeavesQueue(states[m], events[m], states[m + 1], c, id)
    decreases k
  {
    if i == k {
      m := k;
    } else {
      m := QueueIsLeftBy(states, events, i, k - 1, c, id);
      if m == k - 1 {
        RunInv(states, events, k - 1);
        StaysOrLeaves(states[k - 1], events[k - 1], states[k - 1 + 1], c, id);
        if Waits(states[k], c, id) {
          m := k;
        }
      }
    }
  }

  /** While its state serves its key and neither its timer nor its context ends, a queued call
      leaves the queue only into a lease. */
  lemma OnlyLeases(states: seq<System>, events: seq<Event>, i: nat, k: nat, c: nat, id: nat) returns (m: nat)
    requires IsRun(states, events) && i <= k < |states| && Waits(states[i], c, id) && !Waits(states[k], c, id)
    requires forall m {:trigger events[m]} :: i <= m < k ==>
               Served(states[m].pool, id) && events[m] != TimeOut(c) && events[m] != Cancel(c)
    ensures i <= m < k && c in states[m + 1].calls && states[m + 1].calls[c].phase == Holding(id)
  {
    m := QueueIsLeftBy(states, events, i, k, c, id);
  }

  // ----- Why a call failed

  /** The event that decides that a call in this phase fails, or has failed. */
  ghost predicate Causes(e: Event, c: nat, phase: Phase) {
    match phase
    case Expired(_) => e == TimeOut(c)
    case Failed(_, error) =>
      (match error
       case ErrQueueTimeout => e == TimeOut(c)
       case ErrCancelled => e == Cancel(c)
       case _ => e.Arrive? && e.c == c)
    case _ => false
  }

  lemma CauseHere(s: System, e: Event, t: System, c: nat)
    requires Inv(s) && Follows(s, e, t) && c in t.calls && (t.calls[c].phase.Expired? || t.calls[c].phase.Failed?)
    ensures || Causes(e, c, t.calls[c].phase)
            || (c in s.calls && (s.calls[c].phase == t.calls[c].phase
                                 || (s.calls[c].phase.Expired? && t.calls[c].phase.Failed?
                                     && t.calls[c].phase.error == ErrQueueTimeout)))
  {
    if c in s.calls {
      CallMoves(s, e, t, c);
    } else {
      assert e.Arrive? && e.c == c;
      ArrivalExact(s, c, e.request, t);
      EnterOutcome(s.pool, e.request);
    }
  }

  /** In every run a call fails by its own timer, its own context or its own arrival, as its
      error says; the event is exhibited. */
  lemma {:induction false} FailureCause(states: seq<System>, events: seq<Event>, i: nat, c: nat) returns (m: nat)
    requires IsRun(states, events) && i < |states| && c in states[i].calls
    requires states[i].calls[c].phase.Expired? || states[i].calls[c].phase.Failed?
    ensures m < i && Causes(events[m], c, states[i].calls[c].phase)
    decreases i
  {
    if i == 0 {
      assert false;
    }
    RunInv(states, events, i - 1);
    CauseHere(states[i - 1], events[i - 1], states[i - 1 + 1], c);
    if Causes(events[i - 1], c, states[i].calls[c].phase) {
      m := i - 1;
    } else {
      m := FailureCause(states, events, i - 1, c);
    }
  }
}
