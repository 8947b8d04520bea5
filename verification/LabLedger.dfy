/** The campaign's trace and its money: what may be called when, what was charged, and what
    was really paid out. */
module LabLedger {
  import opened LabEvidence
  import opened LabVerdicts

  datatype Worker = Profiler | Generator | Builder | Qualifier

  datatype Event = Clock(time: int) | Call(worker: Worker, spend: real) | Charge(payee: Worker, amount: real)

  /** The recorded spend. */
  ghost function Charged(trace: seq<Event>): real {
    if trace == [] then 0.0 else
      Charged(trace[..|trace| - 1]) + if trace[|trace| - 1].Charge? then trace[|trace| - 1].amount else 0.0
  }

  ghost function Positive(x: real): real {
    if x > 0.0 then x else 0.0
  }

  /** What was really paid out: negative charges lower the recorded spend and pay nothing. */
  ghost function Gross(trace: seq<Event>): real {
    if trace == [] then 0.0 else
      Gross(trace[..|trace| - 1]) + if trace[|trace| - 1].Charge? then Positive(trace[|trace| - 1].amount) else 0.0
  }

  lemma TotalsAppend(trace: seq<Event>, e: Event)
    ensures Charged(trace + [e]) == Charged(trace) + if e.Charge? then e.amount else 0.0
    ensures Gross(trace + [e]) == Gross(trace) + if e.Charge? then Positive(e.amount) else 0.0
  {
    assert (trace + [e])[..|trace|] == trace;
  }

  ghost predicate WithinBudget(policy: Policy, cost: real) {
    0.0 <= cost <= policy.maxCost
  }

  // ----- What an experiment costs

  ghost function GenerationCost(x: Experiment): real {
    if x.generation.Some? then x.generation.value.cost else 0.0
  }

  ghost function BuildCost(x: Experiment): real {
    if x.build.Some? then x.build.value.cost else 0.0
  }

  ghost function MeasureCost(x: Experiment): real {
    if x.qualification.Some? then x.qualification.value.cost else 0.0
  }

  ghost function Cost(x: Experiment): real {
    GenerationCost(x) + BuildCost(x) + MeasureCost(x)
  }

  ghost function TotalCost(xs: seq<Experiment>): real {
    if xs == [] then 0.0 else TotalCost(xs[..|xs| - 1]) + Cost(xs[|xs| - 1])
  }

  /** What a negative qualification cost takes off the recorded spend. */
  ghost function Refund(x: Experiment): real {
    if MeasureCost(x) < 0.0 then -MeasureCost(x) else 0.0
  }

  ghost function Refunds(xs: seq<Experiment>): real {
    if xs == [] then 0.0 else Refunds(xs[..|xs| - 1]) + Refund(xs[|xs| - 1])
  }

  /** What an experiment pays out. */
  ghost function Spend(x: Experiment): real {
    GenerationCost(x) + BuildCost(x) + Positive(MeasureCost(x))
  }

  ghost function Outlay(xs: seq<Experiment>): real {
    if xs == [] then 0.0 else Outlay(xs[..|xs| - 1]) + Spend(xs[|xs| - 1])
  }

  lemma {:induction false} OutlaySplit(xs: seq<Experiment>)
    ensures Outlay(xs) == TotalCost(xs) + Refunds(xs)
  {
    if xs != [] {
      OutlaySplit(xs[..|xs| - 1]);
    }
  }

  /** With `paid` already spent, none of the experiment's charges leaves the budget. */
  ghost predicate Affords(policy: Policy, paid: real, x: Experiment) {
    && WithinBudget(policy, paid + GenerationCost(x))
    && WithinBudget(policy, paid + GenerationCost(x) + BuildCost(x))
    && WithinBudget(policy, paid + Cost(x))
  }

  /** With `paid` already spent, the experiments can be paid for one after the other. */
  ghost predicate AffordsAll(policy: Policy, paid: real, xs: seq<Experiment>) {
    xs == [] || (AffordsAll(policy, paid, xs[..|xs| - 1])
                 && Affords(policy, paid + TotalCost(xs[..|xs| - 1]), xs[|xs| - 1]))
  }

  lemma TotalsExtend(policy: Policy, paid: real, xs: seq<Experiment>, x: Experiment)
    ensures TotalCost(xs + [x]) == TotalCost(xs) + Cost(x)
    ensures Refunds(xs + [x]) == Refunds(xs) + Refund(x) && Outlay(xs + [x]) == Outlay(xs) + Spend(x)
    ensures AffordsAll(policy, paid, xs + [x]) <==>
            AffordsAll(policy, paid, xs) && Affords(policy, paid + TotalCost(xs), x)
  {
    assert (xs + [x])[..|xs|] == xs;
  }

  lemma {:induction false} AffordsPrefix(policy: Policy, paid: real, xs: seq<Experiment>, n: nat)
    requires AffordsAll(policy, paid, xs) && n <= |xs|
    ensures AffordsAll(policy, paid, xs[..n])
  {
    if n == |xs| {
      assert xs[..n] == xs;
    } else {
      AffordsPrefix(policy, paid, xs[..|xs| - 1], n);
      assert xs[..|xs| - 1][..n] == xs[..n];
    }
  }

  /** Generation and build evidence is accepted only with a cost that is not negative. */
  ghost predicate Priced(x: Experiment) {
    GenerationCost(x) >= 0.0 && BuildCost(x) >= 0.0
  }

  lemma {:induction false} OutlayPrefix(xs: seq<Experiment>, ys: seq<Experiment>)
    requires xs <= ys && forall i :: 0 <= i < |ys| ==> Priced(ys[i])
    ensures Outlay(xs) <= Outlay(ys)
  {
    if |xs| < |ys| {
      OutlayPrefix(xs, ys[..|ys| - 1]);
    } else {
      assert xs == ys;
    }
  }

  lemma SourcedPriced(r: Request, digest: string, env: Environment, p: Profile, c: Candidate, i: nat)
    ensures Priced(Sourced(r, digest, env, p, c, i))
  {
  }

  lemma TestedPriced(r: Request, digest: string, env: Environment, x: Experiment, i: nat)
    requires Priced(x)
    ensures Priced(Tested(r, digest, env, x, i))
  {
  }

  lemma ExpectedPriced(r: Request, digest: string, env: Environment, p: Profile, c: Candidate, i: nat)
    ensures Priced(Expected(r, digest, env, p, c, i)) && Priced(Sourced(r, digest, env, p, c, i))
  {
    SourcedPriced(r, digest, env, p, c, i);
    TestedPriced(r, digest, env, Sourced(r, digest, env, p, c, i), i);
  }

  lemma DuePriced(r: Request, digest: string, env: Environment, p: Profile, plan: seq<Candidate>)
    ensures forall i :: 0 <= i < |plan| ==> Priced(Due(r, digest, env, p, plan)[i])
  {
    forall i | 0 <= i < |plan| ensures Priced(Due(r, digest, env, p, plan)[i]) {
      ExpectedPriced(r, digest, env, p, plan[i], i);
    }
  }

  lemma DueOutlay(r: Request, digest: string, env: Environment, p: Profile, plan: seq<Candidate>)
    ensures Outlay(Due(r, digest, env, p, plan)) >= 0.0
  {
    DuePriced(r, digest, env, p, plan);
    OutlayPrefix([], Due(r, digest, env, p, plan));
  }

  // ----- The trace

  /** A worker may be called here: the clock was read since the last call and showed time
      left, and the recorded spend is within the limit. */
  ghost predicate Licensed(policy: Policy, before: seq<Event>, call: Event)
    requires call.Call?
  {
    && before != [] && before[|before| - 1].Clock? && before[|before| - 1].time < policy.authorizedUntil
    && call.spend == Charged(before)
    && 0.0 <= call.spend <= policy.maxCost
  }

  /** A charge directly follows the call of the worker it pays, and only what a qualifier
      reports may lower the recorded spend. */
  ghost predicate Fair(before: seq<Event>, charge: Event)
    requires charge.Charge?
  {
    && before != [] && before[|before| - 1].Call? && before[|before| - 1].worker == charge.payee
    && (charge.amount >= 0.0 || charge.payee == Qualifier)
  }

  ghost predicate Allowed(r: Request, env: Environment, before: seq<Event>, e: Event) {
    match e
    case Clock(time) => time == env.now(|before|)
    case Call(_, _) => Licensed(r.policy, before, e)
    case Charge(_, _) => Fair(before, e)
  }

  ghost predicate Disciplined(r: Request, env: Environment, trace: seq<Event>) {
    trace == [] || (Disciplined(r, env, trace[..|trace| - 1])
                    && Allowed(r, env, trace[..|trace| - 1], trace[|trace| - 1]))
  }

  /** In an orderly trace every event was allowed when it happened. */
  lemma {:induction false} DisciplinedAt(r: Request, env: Environment, trace: seq<Event>, i: nat)
    requires Disciplined(r, env, trace) && i < |trace|
    ensures Allowed(r, env, trace[..i], trace[i])
  {
    var last := |trace| - 1;
    if i < last {
      DisciplinedAt(r, env, trace[..last], i);
      assert trace[..last][..i] == trace[..i];
    }
  }

  lemma DisciplinedAppend(r: Request, env: Environment, trace: seq<Event>, e: Event)
    requires Disciplined(r, env, trace) && Allowed(r, env, trace, e)
    ensures Disciplined(r, env, trace + [e])
  {
    assert (trace + [e])[..|trace|] == trace;
  }

  /** The trace so far is in order and the recorded cost is what it charged. */
  ghost predicate Books(r: Request, env: Environment, trace: seq<Event>, cost: real) {
    Disciplined(r, env, trace) && cost == Charged(trace)
  }

  ghost predicate Solvent(r: Request, env: Environment, trace: seq<Event>, cost: real) {
    Books(r, env, trace, cost) && WithinBudget(r.policy, cost)
  }

  /** Why a campaign may stop at its i-th candidate. */
  ghost predicate Excused(r: Request, env: Environment, trace: seq<Event>, cost: real, i: nat) {
    || (trace != [] && trace[|trace| - 1].Clock? && trace[|trace| - 1].time >= r.policy.authorizedUntil)
    || !WithinBudget(r.policy, cost)
    || !env.report(|trace|)
    || (r.policy.research && !env.intent(i))
  }

  /** Time never runs out, every progress report is taken and every research intent is made. */
  ghost predicate Unhindered(r: Request, env: Environment) {
    forall k: nat :: env.now(k) < r.policy.authorizedUntil && env.report(k) && env.intent(k)
  }

  /** Left alone, a campaign stops early only over money. */
  lemma OnlyMoneyStops(r: Request, env: Environment, trace: seq<Event>, cost: real, i: nat)
    requires Unhindered(r, env) && Books(r, env, trace, cost) && Excused(r, env, trace, cost, i)
    ensures !WithinBudget(r.policy, cost)
  {
    if trace != [] && trace[|trace| - 1].Clock? {
      assert Allowed(r, env, trace[..|trace| - 1], trace[|trace| - 1]);
    }
  }

  /** What negative charges took off the recorded spend. */
  ghost function Rebates(trace: seq<Event>): real {
    if trace == [] then 0.0 else
      Rebates(trace[..|trace| - 1]) + if trace[|trace| - 1].Charge? then Positive(-trace[|trace| - 1].amount) else 0.0
  }

  lemma {:induction false} GrossSplit(trace: seq<Event>)
    ensures Gross(trace) == Charged(trace) + Rebates(trace) && Rebates(trace) >= 0.0
  {
    if trace != [] {
      GrossSplit(trace[..|trace| - 1]);
    }
  }

  /** However a campaign ends, what it paid out is the recorded cost and the rebates, every
      charge directly follows the call of the worker it pays, and only qualifiers give rebates. */
  lemma OnlyQualifiersRebate(r: Request, env: Environment, trace: seq<Event>, cost: real)
    requires Books(r, env, trace, cost)
    ensures Gross(trace) == cost + Rebates(trace) && Rebates(trace) >= 0.0
    ensures forall i :: 0 <= i < |trace| && trace[i].Charge? ==>
              && i > 0 && trace[i - 1].Call? && trace[i - 1].worker == trace[i].payee
              && (trace[i].amount < 0.0 ==> trace[i].payee == Qualifier)
  {
    GrossSplit(trace);
    forall i | 0 <= i < |trace| && trace[i].Charge?
      ensures && i > 0 && trace[i - 1].Call? && trace[i - 1].worker == trace[i].payee
              && (trace[i].amount < 0.0 ==> trace[i].payee == Qualifier)
    {
      DisciplinedAt(r, env, trace, i);
    }
  }
}
