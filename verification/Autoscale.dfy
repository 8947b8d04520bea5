/** Scaling decisions: the queue evaluator, the evidence evaluator and the fallback
    between them.  Floating point is modelled by reals, times by integers. */
module Autoscale {
  import opened Wrappers

  const MINIMUM_SLO_SAMPLES := 20

  datatype Policy = Policy(
    enabled: bool,
    minReplicas: int,
    maxReplicas: int,
    queueThreshold: real,
    lowLoadThreshold: real,
    scaleUpIntervals: int,
    scaleDownIntervals: int,
    cooldown: int,
    maxTTFT: Option<real>,
    maxLatency: Option<real>)

  datatype Signals = Signals(waiting: real, running: real, observedAt: int)

  datatype Evidence = Evidence(
    requestSamples: int,
    requestsPerSecond: Option<real>,
    p95TTFT: Option<real>,
    p95Latency: Option<real>,
    benchmarkSamples: int,
    goodputPerReplica: Option<real>,
    comparable: bool)

  datatype State = State(replicas: int, consecutiveHigh: int, consecutiveLow: int, lastScaledAt: Option<int>)

  datatype Action = Hold | ScaleUp | ScaleDown

  datatype Decision = Decision(action: Action, oldReplicas: int, newReplicas: int, nextHigh: int, nextLow: int)

  predicate CoolingDown(p: Policy, s: State, observedAt: int) {
    s.lastScaledAt.Some? && observedAt - s.lastScaledAt.value < p.cooldown
  }

  function Holding(s: State): Decision {
    Decision(Hold, s.replicas, s.replicas, 0, 0)
  }

  function Min(a: int, b: int): int {
    if a <= b then a else b
  }

  function Max(a: int, b: int): int {
    if a >= b then a else b
  }

  /** The queue evaluator; None is its error return. */
  function Evaluate(p: Policy, s: State, signals: Signals): Option<Decision> {
    if p.minReplicas < 1 || p.maxReplicas < p.minReplicas then None
    else if p.scaleUpIntervals < 1 || p.scaleDownIntervals < 1 || p.cooldown < 0 then None
    else if s.replicas < p.minReplicas || s.replicas > p.maxReplicas then None
    else if !p.enabled then Some(Holding(s))
    else if CoolingDown(p, s, signals.observedAt) then Some(Holding(s))
    else if signals.waiting >= p.queueThreshold then
      var high := s.consecutiveHigh + 1;
      if high >= p.scaleUpIntervals && s.replicas < p.maxReplicas then
        Some(Decision(ScaleUp, s.replicas, s.replicas + 1, 0, 0))
      else Some(Holding(s).(nextHigh := high))
    else if signals.running + signals.waiting <= p.lowLoadThreshold then
      var low := s.consecutiveLow + 1;
      if low >= p.scaleDownIntervals && s.replicas > p.minReplicas then
        Some(Decision(ScaleDown, s.replicas, s.replicas - 1, 0, 0))
      else Some(Holding(s).(nextLow := low))
    else Some(Holding(s))
  }

  /** Every check that sends EvaluateWithSLO to its fallback passes. */
  predicate Usable(p: Policy, e: Evidence) {
    && (p.maxTTFT.Some? || p.maxLatency.Some?)
    && e.requestSamples >= MINIMUM_SLO_SAMPLES && e.requestsPerSecond.Some?
    && e.comparable && e.benchmarkSamples >= MINIMUM_SLO_SAMPLES
    && e.goodputPerReplica.Some? && e.goodputPerReplica.value > 0.0
    && (p.maxTTFT.Some? ==> e.p95TTFT.Some?)
    && (p.maxLatency.Some? ==> e.p95Latency.Some?)
  }

  predicate Breached(p: Policy, e: Evidence)
    requires Usable(p, e)
  {
    || (p.maxTTFT.Some? && e.p95TTFT.value > p.maxTTFT.value)
    || (p.maxLatency.Some? && e.p95Latency.value > p.maxLatency.value)
  }

  function Ceil(x: real): (n: int)
    ensures n as real >= x && (n - 1) as real < x
  {
    -((-x).Floor)
  }

  /** The replicas the measured load asks for, clamped to the policy. */
  function DemandTarget(p: Policy, e: Evidence): int
    requires Usable(p, e)
  {
    Max(p.minReplicas, Min(p.maxReplicas, Ceil(e.requestsPerSecond.value / e.goodputPerReplica.value)))
  }

  function Target(p: Policy, s: State, e: Evidence): int
    requires Usable(p, e)
  {
    var target := DemandTarget(p, e);
    if Breached(p, e) && target <= s.replicas then Min(p.maxReplicas, s.replicas + 1) else target
  }

  function EvaluateEvidenceTarget(p: Policy, s: State, observedAt: int, target: int, breached: bool): Option<Decision> {
    if p.minReplicas < 1 || p.maxReplicas < p.minReplicas || target < p.minReplicas || target > p.maxReplicas then None
    else if !p.enabled then Some(Holding(s))
    else if CoolingDown(p, s, observedAt) then Some(Holding(s))
    else if target > s.replicas || breached then
      var high := s.consecutiveHigh + 1;
      if high >= p.scaleUpIntervals && s.replicas < p.maxReplicas then
        Some(Decision(ScaleUp, s.replicas, Min(target, s.replicas + 1), 0, 0))
      else Some(Holding(s).(nextHigh := high))
    else if target < s.replicas then
      var low := s.consecutiveLow + 1;
      if low >= p.scaleDownIntervals && s.replicas > p.minReplicas then
        Some(Decision(ScaleDown, s.replicas, Max(target, s.replicas - 1), 0, 0))
      else Some(Holding(s).(nextLow := low))
    else Some(Holding(s))
  }

  function EvaluateWithSLO(p: Policy, s: State, signals: Signals, e: Evidence): Option<Decision> {
    if !Usable(p, e) then Evaluate(p, s, signals)
    else EvaluateEvidenceTarget(p, s, signals.observedAt, Target(p, s, e), Breached(p, e))
  }

  // ----- What a target means

  lemma AtLeastRatio(load: real, goodput: real, n: real)
    requires goodput > 0.0 && n >= load / goodput
    ensures n * goodput >= load
  {
    var ratio := load / goodput;
    assert ratio * goodput == load;
    assert (n - ratio) * goodput >= 0.0;
  }

  lemma BelowRatio(load: real, goodput: real, n: real)
    requires goodput > 0.0 && n < load / goodput
    ensures n * goodput < load
  {
    var ratio := load / goodput;
    assert ratio * goodput == load;
    assert (ratio - n) * goodput > 0.0;
  }

  /** `n` replicas carry the measured load. */
  ghost predicate Carries(e: Evidence, n: int)
    requires e.requestsPerSecond.Some? && e.goodputPerReplica.Some?
  {
    n as real * e.goodputPerReplica.value >= e.requestsPerSecond.value
  }

  lemma CeilingCarries(p: Policy, e: Evidence, n: int)
    requires Usable(p, e)
    ensures Carries(e, n) <==> n >= Ceil(e.requestsPerSecond.value / e.goodputPerReplica.value)
  {
    var load, goodput, count := e.requestsPerSecond.value, e.goodputPerReplica.value, n as real;
    if count >= load / goodput {
      AtLeastRatio(load, goodput, count);
    } else {
      BelowRatio(load, goodput, count);
    }
  }

  /** The clamped target is the least replica count within the policy that carries the
      measured load, or the largest allowed when none does. */
  lemma TargetMeaning(p: Policy, e: Evidence)
    requires Usable(p, e) && p.minReplicas <= p.maxReplicas
    ensures p.minReplicas <= DemandTarget(p, e) <= p.maxReplicas
    ensures forall n :: p.minReplicas <= n <= p.maxReplicas ==>
              (if Carries(e, n) then DemandTarget(p, e) <= n else n < DemandTarget(p, e) || n == p.maxReplicas)
  {
    forall n | p.minReplicas <= n <= p.maxReplicas
      ensures if Carries(e, n) then DemandTarget(p, e) <= n else n < DemandTarget(p, e) || n == p.maxReplicas
    {
      CeilingCarries(p, e, n);
    }
  }

  // ----- What the evidence decides, over the numbers measured

  /** A 95th percentile that has an objective is above it. */
  ghost predicate Exceeds(p: Policy, e: Evidence) {
    || (p.maxTTFT.Some? && e.p95TTFT.Some? && p.maxTTFT.value < e.p95TTFT.value)
    || (p.maxLatency.Some? && e.p95Latency.Some? && p.maxLatency.value < e.p95Latency.value)
  }

  /** There is an objective, every objective was measured, and both the requests and the
      benchmark have twenty samples and a rate to compare. */
  ghost predicate Conclusive(p: Policy, e: Evidence) {
    && (p.maxTTFT.Some? || p.maxLatency.Some?)
    && (p.maxTTFT.Some? ==> e.p95TTFT.Some?) && (p.maxLatency.Some? ==> e.p95Latency.Some?)
    && !(e.requestSamples < 20) && e.requestsPerSecond != None
    && e.comparable && !(e.benchmarkSamples < 20)
    && e.goodputPerReplica != None && !(e.goodputPerReplica.value <= 0.0)
  }

  /** Evidence that is not conclusive leaves the decision to the queue evaluator; conclusive
      evidence takes it away from the queue altogether. */
  lemma FallbackExact(p: Policy, s: State, signals: Signals, other: Signals, e: Evidence)
    ensures !Conclusive(p, e) ==> EvaluateWithSLO(p, s, signals, e) == Evaluate(p, s, signals)
    ensures Conclusive(p, e) && signals.observedAt == other.observedAt ==>
              EvaluateWithSLO(p, s, signals, e) == EvaluateWithSLO(p, s, other, e)
    ensures Conclusive(p, e) <==> Usable(p, e)
  {
  }

  /** Neither evaluator counts or scales while a change is recent: less than Cooldown ago. */
  ghost predicate Recent(p: Policy, s: State, now: int) {
    s.lastScaledAt != None && now < s.lastScaledAt.value + p.cooldown
  }

  /** What conclusive evidence decides, outside the cooldown: scale up, or count towards it,
      exactly when an objective is exceeded or the load needs more replicas; down, or towards
      it, exactly when none is and it needs fewer; and nothing otherwise. */
  lemma EvidenceDecides(p: Policy, s: State, signals: Signals, e: Evidence)
    requires 1 <= p.minReplicas <= s.replicas <= p.maxReplicas && p.enabled
    requires s.consecutiveHigh >= 0 && s.consecutiveLow >= 0
    requires Conclusive(p, e) && !Recent(p, s, signals.observedAt)
    ensures Usable(p, e) && EvaluateWithSLO(p, s, signals, e).Some?
    ensures var d, target := EvaluateWithSLO(p, s, signals, e).value, DemandTarget(p, e);
            && (d.action == ScaleUp || d.nextHigh > 0 <==> Exceeds(p, e) || target > s.replicas)
            && (d.action == ScaleDown || d.nextLow > 0 <==> !Exceeds(p, e) && target < s.replicas)
  {
  }

  /** Nothing is decided while disabled or in the cooldown, whatever is read. */
  lemma QuietHolds(p: Policy, s: State, signals: Signals, e: Evidence)
    requires !p.enabled || Recent(p, s, signals.observedAt)
    ensures Evaluate(p, s, signals).Some? ==>
            Evaluate(p, s, signals).value == Decision(Hold, s.replicas, s.replicas, 0, 0)
    ensures EvaluateWithSLO(p, s, signals, e).Some? ==>
              EvaluateWithSLO(p, s, signals, e).value == Decision(Hold, s.replicas, s.replicas, 0, 0)
  {
  }

  /** The errors: a policy without room or windows, or, for the queue evaluator, a size outside
      the policy.  On conclusive evidence only the bounds of the policy are checked. */
  lemma ErrsExactly(p: Policy, s: State, signals: Signals, e: Evidence)
    ensures Evaluate(p, s, signals) == None <==>
              p.minReplicas < 1 || p.maxReplicas < p.minReplicas || p.scaleUpIntervals < 1 || p.scaleDownIntervals < 1
              || p.cooldown < 0 || s.replicas < p.minReplicas || p.maxReplicas < s.replicas
    ensures Conclusive(p, e) && p.minReplicas <= s.replicas ==>
              (EvaluateWithSLO(p, s, signals, e) == None <==> p.minReplicas < 1 || p.maxReplicas < p.minReplicas)
  {
  }

  // ----- The shape of a decision

  predicate InBounds(p: Policy, s: State) {
    p.minReplicas <= s.replicas <= p.maxReplicas
  }

  ghost predicate Shaped(p: Policy, s: State, d: Decision) {
    && d.oldReplicas == s.replicas
    && p.minReplicas <= d.newReplicas <= p.maxReplicas
    && d.newReplicas == s.replicas + (match d.action case Hold => 0 case ScaleUp => 1 case ScaleDown => -1)
    && (d.nextHigh == 0 || d.nextLow == 0)
    && (d.action != Hold ==> d.nextHigh == d.nextLow == 0)
  }

  /** On its own the evidence evaluator can call a decrease a scale-up.  It is shaped right
      for an admissible target exactly when it does not scale up towards a target at or below
      the current size, which only a breach makes it do. */
  lemma EvidenceTargetShape(p: Policy, s: State, observedAt: int, target: int, breached: bool)
    requires InBounds(p, s) && EvaluateEvidenceTarget(p, s, observedAt, target, breached).Some?
    ensures var d := EvaluateEvidenceTarget(p, s, observedAt, target, breached).value;
            Shaped(p, s, d) <==>
            !(&& breached && target <= s.replicas && s.replicas < p.maxReplicas
              && p.enabled && !CoolingDown(p, s, observedAt) && s.consecutiveHigh + 1 >= p.scaleUpIntervals)
  {
  }

  /** From any in-bounds state both evaluators stay in bounds, a scale-up is exactly one more
      replica, a scale-down exactly one fewer, a hold none, and usable evidence of a breached
      objective never removes a replica. */
  lemma DecisionShape(p: Policy, s: State, signals: Signals, e: Evidence)
    requires InBounds(p, s)
    ensures Evaluate(p, s, signals).Some? ==> Shaped(p, s, Evaluate(p, s, signals).value)
    ensures EvaluateWithSLO(p, s, signals, e).Some? ==>
              && Shaped(p, s, EvaluateWithSLO(p, s, signals, e).value)
              && (Usable(p, e) && Breached(p, e) ==> EvaluateWithSLO(p, s, signals, e).value.action != ScaleDown)
  {
    if Usable(p, e) && EvaluateWithSLO(p, s, signals, e).Some? {
      EvidenceTargetShape(p, s, signals.observedAt, Target(p, s, e), Breached(p, e));
    }
  }

  lemma MislabelledDecrease() returns (p: Policy, s: State)
    ensures InBounds(p, s)
    ensures EvaluateEvidenceTarget(p, s, 0, 1, true) == Some(Decision(ScaleUp, 2, 1, 0, 0))
  {
    p := Policy(true, 1, 3, 0.0, 0.0, 1, 1, 0, None, None);
    s := State(2, 0, 0, None);
  }
}
