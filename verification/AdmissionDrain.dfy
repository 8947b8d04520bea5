/** Releases alone drain the queue: from any reachable state in which no call is stranded,
    every call can be carried to its end without a timer, a cancellation or a new policy. */
module AdmissionDrain {
  import opened AdmissionPool
  import opened AdmissionRuns
  import opened Counting

  /** The call has not returned its lease or its error yet. */
  ghost predicate Unfinished(call: Call) {
    call.phase.Queued? || call.phase.Parked? || call.phase.Expired? || call.phase.Holding?
  }

  ghost predicate AllFinished(s: System) {
    forall c :: c in s.calls ==> !Unfinished(s.calls[c])
  }

  /** An event of the calls themselves. */
  ghost predicate Serving(e: Event) {
    e.Retry? || e.Wake? || e.Charge? || e.Free?
  }

  /** A state with no free slot has a call that holds one. */
  lemma FullStateHasHolder(s: System, id: nat)
    requires Inv(s) && id < |s.pool.arena| && s.pool.arena[id].active >= s.pool.arena[id].policy.maxConcurrency
    ensures exists h :: h in s.calls && s.calls[h].phase == Holding(id)
  {
    CountPositive(s.calls, Is(Leases, id));
    assert Amount(s.pool.arena[id], Leases) > 0;
    var h :| h in s.calls && Is(Leases, id)(s.calls[h]);
    assert s.calls[h].phase == Holding(id);
  }

  /** No deadlock: while a call is unfinished and none is stranded, some call can act. */
  lemma SomeCallCanAct(s: System) returns (e: Event)
    requires Inv(s) && NoneStranded(s) && !AllFinished(s)
    ensures Enabled(s, e) && Serving(e) && Unfinished(s.calls[e.c])
  {
    var c :| c in s.calls && Unfinished(s.calls[c]);
    match s.calls[c].phase
    case Queued(_) => e := Retry(c);
    case Expired(_) => e := Charge(c);
    case Holding(_) => e := Free(c);
    case Parked(id, _, _) =>
      if !Open(s, c) {
        e := Wake(c);
      } else {
        assert !Stranded(s, c);
        FullStateHasHolder(s, id);
        var h :| h in s.calls && s.calls[h].phase == Holding(id);
        e := Free(h);
      }
  }

  // ----- Progress measure

  ghost function Generations(v: View): seq<nat> {
    seq(|v.arena|, i requires 0 <= i < |v.arena| => v.arena[i].notify)
  }

  /** What a call may still do before the next release: two actions once its channel is
      closed, one while it is queued. */
  ghost function Steps(generations: seq<nat>, call: Call): nat {
    match call.phase
    case Queued(_) => 1
    case Parked(id, g, _) => if id < |generations| && g != generations[id] then 2 else 0
    case _ => 0
  }

  ghost function CanTake(generations: seq<nat>, n: nat): Call -> bool {
    call => Steps(generations, call) >= n
  }

  ghost function IsUnfinished(): Call -> bool {
    call => Unfinished(call)
  }

  ghost function Restless(s: System): nat {
    var g := Generations(s.pool);
    Count(s.calls, CanTake(g, 1)) + Count(s.calls, CanTake(g, 2))
  }

  ghost function Remaining(s: System): nat {
    Count(s.calls, IsUnfinished())
  }

  /** A wake-up or a retry uses up steps and finishes no fewer calls. */
  lemma QuietProgress(s: System, e: Event)
    requires Inv(s) && Enabled(s, e) && (e.Retry? || e.Wake?)
    ensures Remaining(Step(s, e)) <= Remaining(s) && Restless(Step(s, e)) < Restless(s)
  {
    var t := Step(s, e);
    var g := Generations(s.pool);
    assert Generations(t.pool) == g;
    assert Placed(s.pool, s.calls[e.c]);
    CountUpdate(s.calls, e.c, t.calls[e.c], IsUnfinished());
    CountUpdate(s.calls, e.c, t.calls[e.c], CanTake(g, 1));
    CountUpdate(s.calls, e.c, t.calls[e.c], CanTake(g, 2));
  }

  /** Returning a lease or charging a timeout finishes a call. */
  lemma FinalProgress(s: System, e: Event)
    requires Inv(s) && Enabled(s, e) && (e.Charge? || e.Free?) && Unfinished(s.calls[e.c])
    ensures Remaining(Step(s, e)) < Remaining(s)
  {
    CountUpdate(s.calls, e.c, Step(s, e).calls[e.c], IsUnfinished());
  }

  ghost function Weigh(remaining: nat, m: nat, restless: nat): nat {
    if remaining == 0 then restless else m + Weigh(remaining - 1, m, restless)
  }

  lemma {:induction false} WeighAdds(remaining: nat, m: nat, restless: nat)
    ensures Weigh(remaining, m, restless) == Weigh(remaining, m, 0) + restless
  {
    if remaining > 0 {
      WeighAdds(remaining - 1, m, restless);
    }
  }

  lemma {:induction false} WeighsLess(a: nat, x: nat, b: nat, y: nat, m: nat)
    requires a <= b && (a == b ==> x < y) && (a < b ==> x < m || x < y)
    ensures Weigh(a, m, x) < Weigh(b, m, y)
  {
    if a > 0 {
      WeighsLess(a - 1, x, b - 1, y, m);
    } else if b > 0 {
      WeighAdds(b - 1, m, y);
    }
  }

  /** A finished call is worth more than every step the others may take before the next one. */
  ghost function Potential(s: System): nat {
    Weigh(Remaining(s), 2 * |s.calls| + 1, Restless(s))
  }

  lemma RestlessBounded(s: System)
    ensures Restless(s) <= 2 * |s.calls|
  {
    var g := Generations(s.pool);
    SubsetSize(Members(s.calls, CanTake(g, 1)), s.calls.Keys);
    SubsetSize(Members(s.calls, CanTake(g, 2)), s.calls.Keys);
    assert |s.calls.Keys| == |s.calls|;
  }

  // ----- Schedules

  /** An unfinished call acts, without timer, cancellation or new policy. */
  ghost predicate Serves(s: System, e: Event, t: System) {
    Follows(s, e, t) && Serving(e) && Unfinished(s.calls[e.c])
  }

  ghost predicate Schedule(s: System, states: seq<System>, events: seq<Event>) {
    && |states| == |events| + 1 && states[0] == s
    && forall i {:trigger events[i]} :: 0 <= i < |events| ==> Serves(states[i], events[i], states[i + 1])
  }

  lemma ServeKeepsCalls(s: System, e: Event, t: System)
    requires Serves(s, e, t)
    ensures |t.calls| == |s.calls|
  {
    assert t.calls.Keys == s.calls.Keys;
    assert |t.calls.Keys| == |t.calls| && |s.calls.Keys| == |s.calls|;
  }

  /** Fewer calls remain, or as many with fewer steps to take. */
  ghost predicate Closer(s: System, t: System) {
    || Remaining(t) < Remaining(s)
    || (Remaining(t) == Remaining(s) && Restless(t) < Restless(s))
  }

  lemma CloserIsLess(s: System, t: System)
    requires |t.calls| == |s.calls| && Closer(s, t)
    ensures Potential(t) < Potential(s)
  {
    RestlessBounded(t);
    WeighsLess(Remaining(t), Restless(t), Remaining(s), Restless(s), 2 * |s.calls| + 1);
  }

  lemma ServeCloser(s: System, e: Event, t: System)
    requires Inv(s) && Serves(s, e, t)
    ensures Closer(s, t)
  {
    if e.Retry? || e.Wake? {
      QuietProgress(s, e);
    } else {
      FinalProgress(s, e);
    }
  }

  /** Whichever call acts, the potential falls. */
  lemma ServeProgress(s: System, e: Event, t: System)
    requires Inv(s) && Serves(s, e, t)
    ensures Potential(t) < Potential(s)
  {
    ServeKeepsCalls(s, e, t);
    ServeCloser(s, e, t);
    CloserIsLess(s, t);
  }

  lemma ServeKeeps(s: System, e: Event, t: System)
    requires Inv(s) && NoneStranded(s) && Serves(s, e, t)
    ensures Inv(t) && NoneStranded(t) && Potential(t) < Potential(s)
  {
    ServeProgress(s, e, t);
    StepInv(s, e);
    StepStrandsNobody(s, e);
  }

  lemma {:induction false} ScheduleBounded(s: System, states: seq<System>, events: seq<Event>, k: nat)
    requires Inv(s) && NoneStranded(s) && Schedule(s, states, events) && k <= |events|
    ensures Inv(states[k]) && NoneStranded(states[k])
    ensures k + Potential(states[k]) <= Potential(s)
  {
    if k > 0 {
      ScheduleBounded(s, states, events, k - 1);
      ServeKeeps(states[k - 1], events[k - 1], states[k - 1 + 1]);
    }
  }

  /** The queue drains under every scheduler: no schedule of retries, wake-ups and releases is
      longer than the potential, and one that cannot be continued has ended every call. */
  lemma EveryScheduleDrains(s: System, states: seq<System>, events: seq<Event>)
    requires Inv(s) && NoneStranded(s) && Schedule(s, states, events)
    ensures |events| <= Potential(s)
    ensures AllFinished(states[|events|]) <==> forall e, t :: !Serves(states[|events|], e, t)
  {
    ScheduleBounded(s, states, events, |events|);
    var last := states[|events|];
    if !AllFinished(last) {
      var e := SomeCallCanAct(last);
      assert Serves(last, e, Step(last, e));
    }
  }

  lemma SchedulePrepend(s: System, e: Event, t: System, states: seq<System>, events: seq<Event>)
    requires Serves(s, e, t) && Schedule(t, states, events)
    ensures Schedule(s, [s] + states, [e] + events)
  {
    var ss, es := [s] + states, [e] + events;
    forall i | 0 <= i < |es| ensures Serves(ss[i], es[i], ss[i + 1]) {
      if i > 0 {
        assert Serves(states[i - 1], events[i - 1], states[i - 1 + 1]);
      }
    }
  }

  /** And there is such a schedule. */
  lemma {:induction false} QueueDrains(s: System) returns (states: seq<System>, events: seq<Event>)
    requires Inv(s) && NoneStranded(s)
    ensures Schedule(s, states, events) && AllFinished(states[|events|])
    decreases Potential(s)
  {
    if AllFinished(s) {
      states, events := [s], [];
    } else {
      var e := SomeCallCanAct(s);
      var t := Step(s, e);
      ServeKeeps(s, e, t);
      states, events := QueueDrains(t);
      SchedulePrepend(s, e, t, states, events);
      states, events := [s] + states, [e] + events;
    }
  }
}
