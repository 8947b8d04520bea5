/** The control loop around the evaluators: stability windows, cooldown and convergence
    over whole runs of one deployment under one policy. */
module AutoscaleRuns {
  import opened Wrappers
  import opened Autoscale

  /** One pass of the controller over the deployment.  `evidence` None is a pass that uses
      the queue evaluator alone; `scaled` says whether the fleet accepts a change, `saved`
      whether the state reaches the repository afterwards. */
  datatype Tick = Tick(signals: Signals, evidence: Option<Evidence>, scaled: bool, saved: bool)

  function Decide(p: Policy, s: State, t: Tick): Option<Decision> {
    match t.evidence
    case None => Evaluate(p, s, t.signals)
    case Some(e) => EvaluateWithSLO(p, s, t.signals, e)
  }

  /** A change of size reaches the fleet. */
  predicate Scales(p: Policy, s: State, t: Tick) {
    var d := Decide(p, s, t);
    d.Some? && d.value.action != Hold && t.scaled
  }

  /** The state the next pass starts from.  The replica count is read back from the fleet, the
      counters and the time of the last change from what was saved. */
  function Advance(p: Policy, s: State, t: Tick): State {
    var d := Decide(p, s, t);
    if d.None? || (d.value.action != Hold && !t.scaled) then s
    else if !t.saved then s.(replicas := d.value.newReplicas)
    else
      State(d.value.newReplicas, d.value.nextHigh, d.value.nextLow,
            if d.value.action != Hold then Some(t.signals.observedAt) else s.lastScaledAt)
  }

  function After(p: Policy, s: State, ticks: seq<Tick>, n: nat): State
    requires n <= |ticks|
  {
    if n == 0 then s else Advance(p, After(p, s, ticks, n - 1), ticks[n - 1])
  }

  predicate ValidPolicy(p: Policy) {
    && 1 <= p.minReplicas <= p.maxReplicas
    && p.scaleUpIntervals >= 1 && p.scaleDownIntervals >= 1 && p.cooldown >= 0
  }

  lemma TickShape(p: Policy, s: State, t: Tick)
    requires InBounds(p, s)
    ensures Decide(p, s, t).Some? ==> Shaped(p, s, Decide(p, s, t).value)
    ensures InBounds(p, Advance(p, s, t))
  {
    match t.evidence
    case None => DecisionShape(p, s, t.signals, Evidence(0, None, None, None, 0, None, false));
    case Some(e) => DecisionShape(p, s, t.signals, e);
  }

  /** The fleet never leaves the policy's bounds, whatever fails. */
  lemma {:induction false} AlwaysInBounds(p: Policy, s: State, ticks: seq<Tick>, n: nat)
    requires InBounds(p, s) && n <= |ticks|
    ensures InBounds(p, After(p, s, ticks, n))
  {
    if n > 0 {
      AlwaysInBounds(p, s, ticks, n - 1);
      TickShape(p, After(p, s, ticks, n - 1), ticks[n - 1]);
    }
  }

  // ----- Stability windows

  /** The pass neither skips its signals nor errs. */
  predicate Live(p: Policy, s: State, t: Tick) {
    p.enabled && !CoolingDown(p, s, t.signals.observedAt)
  }

  predicate High(p: Policy, s: State, t: Tick) {
    && Live(p, s, t)
    && if t.evidence.Some? && Usable(p, t.evidence.value) then
         Target(p, s, t.evidence.value) > s.replicas || Breached(p, t.evidence.value)
       else t.signals.waiting >= p.queueThreshold
  }

  predicate Low(p: Policy, s: State, t: Tick) {
    && Live(p, s, t)
    && !High(p, s, t)
    && if t.evidence.Some? && Usable(p, t.evidence.value) then Target(p, s, t.evidence.value) < s.replicas
       else t.signals.running + t.signals.waiting <= p.lowLoadThreshold
  }

  /** What a pass reads, over the numbers measured. */
  lemma ReadingExact(p: Policy, s: State, t: Tick)
    requires ValidPolicy(p) && InBounds(p, s)
    ensures var live := p.enabled && !Recent(p, s, t.signals.observedAt);
            if t.evidence.Some? && Conclusive(p, t.evidence.value) then
              var e := t.evidence.value;
              && Usable(p, e)
              && (High(p, s, t) <==> live && (Exceeds(p, e) || DemandTarget(p, e) > s.replicas))
              && (Low(p, s, t) <==> live && !Exceeds(p, e) && DemandTarget(p, e) < s.replicas)
            else
              && (High(p, s, t) <==> live && t.signals.waiting >= p.queueThreshold)
              && (Low(p, s, t) <==> live && t.signals.waiting < p.queueThreshold
                                    && t.signals.running + t.signals.waiting <= p.lowLoadThreshold)
  {
  }

  /** A pass that errs, or whose change the fleet refuses, leaves everything as it was; one that
      holds changes no size. */
  lemma NothingChanged(p: Policy, s: State, t: Tick)
    ensures Decide(p, s, t) == None ==> Advance(p, s, t) == s
    ensures Decide(p, s, t).Some? && Decide(p, s, t).value.action != Hold && !t.scaled ==> Advance(p, s, t) == s
    ensures ValidPolicy(p) && InBounds(p, s) && !Scales(p, s, t) ==> Advance(p, s, t).replicas == s.replicas
  {
    if ValidPolicy(p) && InBounds(p, s) {
      TickShape(p, s, t);
    }
  }

  // Both directions at once: `up` is true for scaling up on high readings.

  predicate Reads(p: Policy, s: State, t: Tick, up: bool) {
    if up then High(p, s, t) else Low(p, s, t)
  }

  function Counter(s: State, up: bool): int {
    if up then s.consecutiveHigh else s.consecutiveLow
  }

  function Window(p: Policy, up: bool): int {
    if up then p.scaleUpIntervals else p.scaleDownIntervals
  }

  predicate Room(p: Policy, s: State, up: bool) {
    if up then s.replicas < p.maxReplicas else s.replicas > p.minReplicas
  }

  function Change(up: bool): Action {
    if up then ScaleUp else ScaleDown
  }

  /** What one pass decides, for either evaluator: it scales exactly on a reading that completes
      its window with room left; a reading that does not scale counts up its own counter, and
      every counter that does not count up is reset. */
  lemma TickCounters(p: Policy, s: State, t: Tick, up: bool)
    requires ValidPolicy(p) && InBounds(p, s)
    ensures Decide(p, s, t).Some?
    ensures var d := Decide(p, s, t).value;
            && (d.action == Change(up) <==> Reads(p, s, t, up) && Counter(s, up) + 1 >= Window(p, up) && Room(p, s, up))
            && (d.action == Hold ==>
                  && d.nextHigh == (if High(p, s, t) then s.consecutiveHigh + 1 else 0)
                  && d.nextLow == (if Low(p, s, t) then s.consecutiveLow + 1 else 0))
            && (d.action != Hold ==> d.nextHigh == d.nextLow == 0)
  {
  }

  /** The pass's outcome reached the repository: any change it decided was made, and the
      state was saved. */
  predicate Recorded(p: Policy, s: State, t: Tick) {
    t.saved && (Decide(p, s, t).Some? && Decide(p, s, t).value.action != Hold ==> t.scaled)
  }

  predicate RecordedAt(p: Policy, s: State, ticks: seq<Tick>, k: nat)
    requires k < |ticks|
  {
    Recorded(p, After(p, s, ticks, k), ticks[k])
  }

  /** Pass `k` read high (low) and changed nothing. */
  predicate Steady(p: Policy, s: State, ticks: seq<Tick>, k: nat, up: bool)
    requires k < |ticks|
  {
    var at := After(p, s, ticks, k);
    Reads(p, at, ticks[k], up) && !Scales(p, at, ticks[k])
  }

  lemma CounterStep(p: Policy, s: State, t: Tick, up: bool)
    requires ValidPolicy(p) && InBounds(p, s)
    ensures Counter(Advance(p, s, t), up) ==
              if !Recorded(p, s, t) then Counter(s, up)
              else if Reads(p, s, t, up) && !Scales(p, s, t) then Counter(s, up) + 1
              else 0
  {
    TickCounters(p, s, t, up);
  }

  /** An unrecorded pass leaves both counters alone; a recorded one counts up or resets. */
  lemma CounterAt(p: Policy, s: State, ticks: seq<Tick>, n: nat, up: bool)
    requires ValidPolicy(p) && InBounds(p, s) && n < |ticks|
    ensures Counter(After(p, s, ticks, n + 1), up) ==
              if !RecordedAt(p, s, ticks, n) then Counter(After(p, s, ticks, n), up)
              else if Steady(p, s, ticks, n, up) then Counter(After(p, s, ticks, n), up) + 1
              else 0
  {
    AlwaysInBounds(p, s, ticks, n);
    CounterStep(p, After(p, s, ticks, n), ticks[n], up);
  }

  /** How many of the passes from `from` up to `n` were recorded. */
  function RecordedCount(p: Policy, s: State, ticks: seq<Tick>, from: nat, n: nat): (count: nat)
    requires from <= n <= |ticks|
    ensures count <= n - from
  {
    if from == n then 0
    else RecordedCount(p, s, ticks, from, n - 1) + if RecordedAt(p, s, ticks, n - 1) then 1 else 0
  }

  lemma {:induction false} RecordedCountMonotone(p: Policy, s: State, ticks: seq<Tick>, from: nat, later: nat, n: nat)
    requires from <= later <= n <= |ticks|
    ensures RecordedCount(p, s, ticks, later, n) <= RecordedCount(p, s, ticks, from, n)
  {
    if later < n {
      RecordedCountMonotone(p, s, ticks, from, later, n - 1);
    }
  }

  /** Every recorded pass from `from` up to `n` was steady. */
  ghost predicate SteadyFrom(p: Policy, s: State, ticks: seq<Tick>, from: nat, n: nat, up: bool)
    requires from <= n <= |ticks|
  {
    forall k: nat {:trigger Steady(p, s, ticks, k, up)} ::
      from <= k < n && RecordedAt(p, s, ticks, k) ==> Steady(p, s, ticks, k, up)
  }

  lemma SteadyFromStep(p: Policy, s: State, ticks: seq<Tick>, from: nat, n: nat, up: bool)
    requires from <= n < |ticks| && SteadyFrom(p, s, ticks, from, n, up)
    requires RecordedAt(p, s, ticks, n) ==> Steady(p, s, ticks, n, up)
    ensures SteadyFrom(p, s, ticks, from, n + 1, up)
  {
    forall k: nat | from <= k < n + 1 && RecordedAt(p, s, ticks, k) ensures Steady(p, s, ticks, k, up) {
      assert k < n || k == n;
    }
  }

  /** `from` is where the window that counts up to pass `n` began: just after the last
      recorded pass that was not steady. */
  ghost predicate BeginsAt(p: Policy, s: State, ticks: seq<Tick>, n: nat, up: bool, from: nat)
    requires n <= |ticks|
  {
    && from <= n && SteadyFrom(p, s, ticks, from, n, up)
    && (from > 0 ==> RecordedAt(p, s, ticks, from - 1) && !Steady(p, s, ticks, from - 1, up))
  }

  lemma BeginsStep(p: Policy, s: State, ticks: seq<Tick>, n: nat, up: bool, from: nat) returns (next: nat)
    requires n < |ticks| && BeginsAt(p, s, ticks, n, up, from)
    ensures next == (if RecordedAt(p, s, ticks, n) && !Steady(p, s, ticks, n, up) then n + 1 else from)
    ensures BeginsAt(p, s, ticks, n + 1, up, next)
  {
    if RecordedAt(p, s, ticks, n) && !Steady(p, s, ticks, n, up) {
      next := n + 1;
    } else {
      next := from;
      SteadyFromStep(p, s, ticks, from, n, up);
    }
  }

  /** In every run, whatever failed to scale or to save, a counter is the number of recorded
      passes since its last recorded pass that was not steady. */
  lemma {:induction false} CountersAreWindows(p: Policy, s: State, ticks: seq<Tick>, n: nat, up: bool)
    returns (from: nat)
    requires ValidPolicy(p) && InBounds(p, s) && Counter(s, up) == 0 && n <= |ticks|
    ensures BeginsAt(p, s, ticks, n, up, from)
    ensures Counter(After(p, s, ticks, n), up) == RecordedCount(p, s, ticks, from, n)
  {
    if n == 0 {
      from := 0;
    } else {
      var before := CountersAreWindows(p, s, ticks, n - 1, up);
      CounterAt(p, s, ticks, n - 1, up);
      from := BeginsStep(p, s, ticks, n - 1, up, before);
    }
  }

  /** Never do both counters stand. */
  lemma {:induction false} OneCounter(p: Policy, s: State, ticks: seq<Tick>, n: nat)
    requires ValidPolicy(p) && InBounds(p, s) && s.consecutiveHigh == s.consecutiveLow == 0 && n <= |ticks|
    ensures var at := After(p, s, ticks, n); at.consecutiveHigh == 0 || at.consecutiveLow == 0
  {
    if n > 0 {
      OneCounter(p, s, ticks, n - 1);
      CounterAt(p, s, ticks, n - 1, true);
      CounterAt(p, s, ticks, n - 1, false);
    }
  }

  /** The last recorded passes before `n`, one fewer than the window, were all steady. */
  ghost predicate WindowComplete(p: Policy, s: State, ticks: seq<Tick>, n: nat, up: bool)
    requires n <= |ticks|
  {
    exists from: nat :: from <= n && SteadyFrom(p, s, ticks, from, n, up)
                        && RecordedCount(p, s, ticks, from, n) >= Window(p, up) - 1
  }

  /** In every run a pass decides to scale up (down) exactly when it reads high (low) with room
      left and completes a window of recorded steady passes, with only unrecorded ones
      between them. */
  lemma ScalesIffWindowComplete(p: Policy, s: State, ticks: seq<Tick>, n: nat, up: bool)
    requires ValidPolicy(p) && InBounds(p, s) && Counter(s, up) == 0 && n < |ticks|
    ensures var at := After(p, s, ticks, n);
            && Decide(p, at, ticks[n]).Some?
            && (Decide(p, at, ticks[n]).value.action == Change(up) <==>
                Reads(p, at, ticks[n], up) && Room(p, at, up) && WindowComplete(p, s, ticks, n, up))
  {
    AlwaysInBounds(p, s, ticks, n);
    TickCounters(p, After(p, s, ticks, n), ticks[n], up);
    var from := CountersAreWindows(p, s, ticks, n, up);
    forall other: nat | other <= n && SteadyFrom(p, s, ticks, other, n, up)
      ensures RecordedCount(p, s, ticks, other, n) <= RecordedCount(p, s, ticks, from, n)
    {
      assert other >= from;
      RecordedCountMonotone(p, s, ticks, from, other, n);
    }
  }

  /** The last `window` passes before pass `n` were all steady. */
  ghost predicate Streak(p: Policy, s: State, ticks: seq<Tick>, n: nat, window: int, up: bool)
    requires n <= |ticks|
  {
    && window <= n
    && forall k: nat :: n - window <= k < n ==> Steady(p, s, ticks, k, up)
  }

  /** The promised window of consecutive passes stands behind a change of size exactly when
      every unrecorded pass in it was steady too. */
  lemma ConsecutiveIff(p: Policy, s: State, ticks: seq<Tick>, n: nat, up: bool)
    requires ValidPolicy(p) && InBounds(p, s) && Counter(s, up) == 0 && n < |ticks|
    requires var d := Decide(p, After(p, s, ticks, n), ticks[n]); d.Some? && d.value.action == Change(up)
    ensures Window(p, up) - 1 <= n
    ensures Streak(p, s, ticks, n, Window(p, up) - 1, up) <==>
            forall k: nat :: n - (Window(p, up) - 1) <= k < n && !RecordedAt(p, s, ticks, k) ==>
              Steady(p, s, ticks, k, up)
  {
    ScalesIffWindowComplete(p, s, ticks, n, up);
    var from: nat :| from <= n && SteadyFrom(p, s, ticks, from, n, up)
                     && RecordedCount(p, s, ticks, from, n) >= Window(p, up) - 1;
  }

  /** With nothing refused or lost in the window, a scale-up (scale-down) ends at least
      ScaleUpIntervals (ScaleDownIntervals) consecutive high (low) readings, with no change of
      size, no disabled and no cooldown pass inside. */
  lemma StabilityWindow(p: Policy, s: State, ticks: seq<Tick>, n: nat, up: bool)
    requires ValidPolicy(p) && InBounds(p, s) && Counter(s, up) == 0 && n < |ticks|
    requires forall k: nat :: n - (Window(p, up) - 1) <= k < n ==> RecordedAt(p, s, ticks, k)
    ensures var at := After(p, s, ticks, n);
            && Decide(p, at, ticks[n]).Some?
            && (Decide(p, at, ticks[n]).value.action == Change(up) ==>
                Reads(p, at, ticks[n], up) && Streak(p, s, ticks, n, Window(p, up) - 1, up))
  {
    ScalesIffWindowComplete(p, s, ticks, n, up);
    if Decide(p, After(p, s, ticks, n), ticks[n]).value.action == Change(up) {
      ConsecutiveIff(p, s, ticks, n, up);
    }
  }

  /** A refused change does split a window: the counters stay as they were, and a low reading
      on either side of a high one completes a window of two.  Any policy that scales up on
      one reading and down on two, at any size strictly inside its bounds, does this. */
  lemma FailedScaleSplitsWindow(p: Policy, s: State, low: Tick, high: Tick)
    requires ValidPolicy(p) && p.enabled && p.scaleUpIntervals == 1 && p.scaleDownIntervals == 2
    requires p.minReplicas < s.replicas < p.maxReplicas
    requires s.consecutiveHigh == s.consecutiveLow == 0 && s.lastScaledAt == None
    requires low.evidence == high.evidence == None && low.saved && !high.scaled
    requires low.signals.waiting < p.queueThreshold && low.signals.running + low.signals.waiting <= p.lowLoadThreshold
    requires high.signals.waiting >= p.queueThreshold
    ensures var ticks := [low, high, low];
            && Decide(p, After(p, s, ticks, 2), low).Some?
            && Decide(p, After(p, s, ticks, 2), low).value.action == ScaleDown
            && !Streak(p, s, ticks, 2, p.scaleDownIntervals - 1, false)
  {
    var ticks := [low, high, low];
    assert After(p, s, ticks, 0) == s;
    assert After(p, s, ticks, 1) == s.(consecutiveLow := 1);
    assert After(p, s, ticks, 2) == s.(consecutiveLow := 1);
    assert !Steady(p, s, ticks, 1, false);
  }

  // ----- Cooldown

  predicate ScalesAt(p: Policy, s: State, ticks: seq<Tick>, k: nat)
    requires k < |ticks|
  {
    Scales(p, After(p, s, ticks, k), ticks[k])
  }

  /** Pass `k` changed the size and the change was saved. */
  predicate SavedAt(p: Policy, s: State, ticks: seq<Tick>, k: nat)
    requires k < |ticks|
  {
    ScalesAt(p, s, ticks, k) && ticks[k].saved
  }

  lemma LastScaledAt(p: Policy, s: State, ticks: seq<Tick>, n: nat)
    requires n < |ticks|
    ensures After(p, s, ticks, n + 1).lastScaledAt ==
              if SavedAt(p, s, ticks, n) then Some(ticks[n].signals.observedAt) else After(p, s, ticks, n).lastScaledAt
  {
  }

  /** In every run the cooldown counts from the last saved change, and from nothing else. */
  lemma {:induction false} LastScaledExact(p: Policy, s: State, ticks: seq<Tick>, n: nat) returns (last: Option<nat>)
    requires n <= |ticks|
    ensures last.Some? ==> last.value < n && SavedAt(p, s, ticks, last.value)
    ensures forall k: nat :: k < n && (last.Some? ==> last.value < k) ==> !SavedAt(p, s, ticks, k)
    ensures After(p, s, ticks, n).lastScaledAt ==
              if last.Some? then Some(ticks[last.value].signals.observedAt) else s.lastScaledAt
  {
    if n == 0 {
      last := None;
    } else {
      last := LastScaledExact(p, s, ticks, n - 1);
      LastScaledAt(p, s, ticks, n - 1);
      if SavedAt(p, s, ticks, n - 1) {
        last := Some(n - 1);
      }
    }
  }

  /** A change of size is at least Cooldown after the last saved one before it, however many
      changes in between were refused or not saved. */
  lemma CooldownBetweenChanges(p: Policy, s: State, ticks: seq<Tick>, i: nat, j: nat)
    requires i < j < |ticks| && SavedAt(p, s, ticks, i) && ScalesAt(p, s, ticks, j)
    requires forall k: nat :: i < k < j ==> !SavedAt(p, s, ticks, k)
    ensures ticks[j].signals.observedAt - ticks[i].signals.observedAt >= p.cooldown
  {
    var last := LastScaledExact(p, s, ticks, j);
    assert last == Some(i);
  }

  /** After a change that was not saved the counters and the cooldown are as they were before
      it, so the next pass changes the size again exactly when it reads high (low), the
      old counter completes the window and the new size leaves room. */
  lemma AfterLostSave(p: Policy, s: State, t: Tick, u: Tick)
    requires ValidPolicy(p) && InBounds(p, s) && Scales(p, s, t) && !t.saved
    ensures var after := Advance(p, s, t);
            && after == s.(replicas := Decide(p, s, t).value.newReplicas)
            && (after.replicas == s.replicas + 1 || after.replicas == s.replicas - 1)
            && (Scales(p, after, u) <==>
                && u.scaled
                && exists up ::
                     Reads(p, after, u, up) && Counter(s, up) + 1 >= Window(p, up) && Room(p, after, up))
  {
    TickShape(p, s, t);
    var after := Advance(p, s, t);
    TickCounters(p, after, u, true);
    TickCounters(p, after, u, false);
  }

  /** So an unsaved scale-up on a deep queue is followed at once by another one, under any
      cooldown, and a saved one is not. */
  lemma LostSaveSkipsCooldown(p: Policy, s: State, t: Tick)
    requires ValidPolicy(p) && p.enabled && p.minReplicas <= s.replicas <= p.maxReplicas - 2
    requires s.consecutiveHigh + 1 >= p.scaleUpIntervals && s.lastScaledAt == None
    requires t.evidence == None && t.signals.waiting >= p.queueThreshold && t.scaled
    ensures ScalesAt(p, s, [t.(saved := false), t], 0) && ScalesAt(p, s, [t.(saved := false), t], 1)
    ensures p.cooldown > 0 ==> !ScalesAt(p, s, [t.(saved := true), t], 1)
  {
    assert After(p, s, [t.(saved := false), t], 1) == s.(replicas := s.replicas + 1);
    assert After(p, s, [t.(saved := true), t], 1) == State(s.replicas + 1, 0, 0, Some(t.signals.observedAt));
  }

  // ----- Convergence

  /** Constant, usable evidence of attained objectives; every change and save succeeds, and
      passes are at least Cooldown apart, the first one also from any earlier change. */
  ghost predicate Undisturbed(p: Policy, s: State, e: Evidence, ticks: seq<Tick>) {
    && (forall k :: 0 <= k < |ticks| ==> ticks[k].evidence == Some(e) && ticks[k].scaled && ticks[k].saved)
    && (forall k, l :: 0 <= k < l < |ticks| ==> ticks[l].signals.observedAt - ticks[k].signals.observedAt >= p.cooldown)
    && (s.lastScaledAt.Some? ==>
          forall k :: 0 <= k < |ticks| ==> ticks[k].signals.observedAt - s.lastScaledAt.value >= p.cooldown)
  }

  ghost predicate Attained(p: Policy, e: Evidence) {
    Usable(p, e) && !Breached(p, e)
  }

  function Interval(p: Policy, s: State, target: int): int {
    if target > s.replicas then p.scaleUpIntervals else p.scaleDownIntervals
  }

  function Distance(s: State, target: int): nat {
    if target > s.replicas then target - s.replicas else s.replicas - target
  }

  /** `moved` whole replicas and `waited` further passes on the way from s to the target. */
  ghost predicate OnTheWay(s: State, target: int, moved: int, waited: int, at: State) {
    && at.replicas == (if target > s.replicas then s.replicas + moved else s.replicas - moved)
    && at.consecutiveHigh == (if target > s.replicas then waited else 0)
    && at.consecutiveLow == (if target < s.replicas then waited else 0)
  }

  /** Whoever was last scaled, the next pass is not in cooldown. */
  ghost predicate Warm(p: Policy, at: State, ticks: seq<Tick>, n: nat) {
    at.lastScaledAt.Some? ==>
      forall k :: n <= k < |ticks| ==> ticks[k].signals.observedAt - at.lastScaledAt.value >= p.cooldown
  }

  lemma WarmStep(p: Policy, s: State, e: Evidence, ticks: seq<Tick>, n: nat)
    requires Undisturbed(p, s, e, ticks) && n < |ticks| && Warm(p, After(p, s, ticks, n), ticks, n)
    ensures Warm(p, After(p, s, ticks, n + 1), ticks, n + 1)
  {
  }

  /** One pass towards the target: wait once more, or move one replica and start over. */
  lemma OnePass(p: Policy, s: State, e: Evidence, t: Tick, at: State, moved: int, waited: int)
    requires ValidPolicy(p) && p.enabled && Attained(p, e) && InBounds(p, s)
    requires t.evidence == Some(e) && t.scaled && t.saved
    requires !CoolingDown(p, at, t.signals.observedAt)
    requires var g := DemandTarget(p, e);
             OnTheWay(s, g, moved, waited, at) && 0 <= moved <= Distance(s, g)
             && 0 <= waited < Interval(p, s, g) && (moved == Distance(s, g) ==> waited == 0)
    ensures var g := DemandTarget(p, e);
            if moved == Distance(s, g) then OnTheWay(s, g, moved, 0, Advance(p, at, t))
            else if waited + 1 == Interval(p, s, g) then OnTheWay(s, g, moved + 1, 0, Advance(p, at, t))
            else OnTheWay(s, g, moved, waited + 1, Advance(p, at, t))
  {
  }

  lemma NextMultiple(k: int, m: int)
    ensures (k + 1) * m == k * m + m
  {
  }

  /** The exact trajectory: after moved * interval + waited passes the loop has moved `moved`
      replicas and waited `waited` passes; at the target it stays. */
  lemma {:induction false} Trajectory(p: Policy, s: State, e: Evidence, ticks: seq<Tick>, n: nat)
    returns (moved: nat, waited: nat)
    requires ValidPolicy(p) && p.enabled && Attained(p, e) && InBounds(p, s)
    requires s.consecutiveHigh == s.consecutiveLow == 0 && Undisturbed(p, s, e, ticks) && n <= |ticks|
    ensures var g := DemandTarget(p, e);
            && OnTheWay(s, g, moved, waited, After(p, s, ticks, n))
            && moved <= Distance(s, g) && waited < Interval(p, s, g)
            && (if moved < Distance(s, g) then n == moved * Interval(p, s, g) + waited
                else waited == 0 && n >= moved * Interval(p, s, g))
    ensures Warm(p, After(p, s, ticks, n), ticks, n)
  {
    var g := DemandTarget(p, e);
    if n == 0 {
      moved, waited := 0, 0;
    } else {
      moved, waited := Trajectory(p, s, e, ticks, n - 1);
      var at := After(p, s, ticks, n - 1);
      WarmStep(p, s, e, ticks, n - 1);
      OnePass(p, s, e, ticks[n - 1], at, moved, waited);
      if moved < Distance(s, g) {
        if waited + 1 == Interval(p, s, g) {
          NextMultiple(moved, Interval(p, s, g));
          moved, waited := moved + 1, 0;
        } else {
          waited := waited + 1;
        }
      }
    }
  }

  lemma MultipleBelow(a: int, b: int, m: int)
    requires a < b && m >= 1
    ensures a * m + m <= b * m
  {
    assert (b - a - 1) * m >= 0;
    assert b * m == a * m + m + (b - a - 1) * m;
  }

  /** Convergence: the loop first reaches the demand target after exactly distance times
      interval passes, and never leaves it. */
  lemma Convergence(p: Policy, s: State, e: Evidence, ticks: seq<Tick>, n: nat)
    requires ValidPolicy(p) && p.enabled && Attained(p, e) && InBounds(p, s)
    requires s.consecutiveHigh == s.consecutiveLow == 0 && Undisturbed(p, s, e, ticks) && n <= |ticks|
    ensures var g := DemandTarget(p, e);
            After(p, s, ticks, n).replicas == g <==> n >= Distance(s, g) * Interval(p, s, g)
  {
    var g := DemandTarget(p, e);
    var moved, waited := Trajectory(p, s, e, ticks, n);
    var interval := Interval(p, s, g);
    if moved < Distance(s, g) {
      MultipleBelow(moved, Distance(s, g), interval);
    }
  }

  // ----- Convergence under a breached objective

  /** One pass under a breach: wait once more, or add one replica and start over, until there
      is no room left. */
  lemma BreachPass(p: Policy, e: Evidence, t: Tick, at: State)
    requires ValidPolicy(p) && p.enabled && InBounds(p, at) && Usable(p, e) && Breached(p, e)
    requires t.evidence == Some(e) && t.scaled && t.saved && !CoolingDown(p, at, t.signals.observedAt)
    ensures var after := Advance(p, at, t);
            if at.replicas == p.maxReplicas then after.replicas == at.replicas
            else if at.consecutiveHigh + 1 >= p.scaleUpIntervals then
              after.replicas == at.replicas + 1 && after.consecutiveHigh == 0
            else after.replicas == at.replicas && after.consecutiveHigh == at.consecutiveHigh + 1
  {
  }

  /** The passes that `moved` whole windows take. */
  ghost function Elapsed(moved: nat, window: nat): nat {
    if moved == 0 then 0 else Elapsed(moved - 1, window) + window
  }

  lemma {:induction false} ElapsedIs(moved: nat, window: nat)
    ensures Elapsed(moved, window) == moved * window
  {
    if moved > 0 {
      ElapsedIs(moved - 1, window);
      NextMultiple(moved - 1, window);
    }
  }

  /** `n` passes have added `moved` replicas and counted `waited` more, or reached the maximum. */
  ghost predicate Climbing(p: Policy, s: State, at: State, moved: int, waited: int, n: int) {
    && at.replicas == s.replicas + moved
    && 0 <= moved <= p.maxReplicas - s.replicas
    && 0 <= waited < p.scaleUpIntervals
    && var elapsed := Elapsed(moved, p.scaleUpIntervals);
       if at.replicas < p.maxReplicas then at.consecutiveHigh == waited && n == elapsed + waited else n >= elapsed
  }

  lemma ClimbOn(p: Policy, s: State, at: State, after: State, moved: int, waited: int, n: int) returns (m: int, w: int)
    requires Climbing(p, s, at, moved, waited, n) && InBounds(p, s)
    requires if at.replicas == p.maxReplicas then after.replicas == at.replicas
             else if at.consecutiveHigh + 1 >= p.scaleUpIntervals then
               after.replicas == at.replicas + 1 && after.consecutiveHigh == 0
             else after.replicas == at.replicas && after.consecutiveHigh == at.consecutiveHigh + 1
    ensures Climbing(p, s, after, m, w, n + 1)
  {
    m, w := moved, waited;
    if at.replicas < p.maxReplicas {
      if waited + 1 == p.scaleUpIntervals {
        m, w := moved + 1, 0;
      } else {
        w := waited + 1;
      }
    }
  }

  /** The exact trajectory under a breach. */
  lemma {:induction false} BreachTrajectory(p: Policy, s: State, e: Evidence, ticks: seq<Tick>, n: nat)
    returns (moved: int, waited: int)
    requires ValidPolicy(p) && p.enabled && InBounds(p, s) && Usable(p, e) && Breached(p, e)
    requires s.consecutiveHigh == 0 && Undisturbed(p, s, e, ticks) && n <= |ticks|
    ensures Climbing(p, s, After(p, s, ticks, n), moved, waited, n)
    ensures Warm(p, After(p, s, ticks, n), ticks, n)
  {
    if n == 0 {
      moved, waited := 0, 0;
    } else {
      moved, waited := BreachTrajectory(p, s, e, ticks, n - 1);
      var at := After(p, s, ticks, n - 1);
      WarmStep(p, s, e, ticks, n - 1);
      BreachPass(p, e, ticks[n - 1], at);
      moved, waited := ClimbOn(p, s, at, After(p, s, ticks, n), moved, waited, n - 1);
    }
  }

  /** Under a lasting breach the loop first reaches the maximum after exactly ScaleUpIntervals
      passes for each replica, whatever the demand, and never leaves it. */
  lemma BreachConvergence(p: Policy, s: State, e: Evidence, ticks: seq<Tick>, n: nat)
    requires ValidPolicy(p) && p.enabled && InBounds(p, s) && Usable(p, e) && Breached(p, e)
    requires s.consecutiveHigh == 0 && Undisturbed(p, s, e, ticks) && n <= |ticks|
    ensures After(p, s, ticks, n).replicas == p.maxReplicas <==> n >= (p.maxReplicas - s.replicas) * p.scaleUpIntervals
  {
    var moved, waited := BreachTrajectory(p, s, e, ticks, n);
    ElapsedIs(moved, p.scaleUpIntervals);
    if s.replicas + moved < p.maxReplicas {
      MultipleBelow(moved, p.maxReplicas - s.replicas, p.scaleUpIntervals);
    }
  }
}
