/** The accelerator lab campaign: profile, plan, then generate, build and qualify each
    candidate under a cost limit and an expiring authority. */
module LabEngine {
  import opened Wrappers
  import opened LabEvidence
  import opened LabRanking
  import opened LabVerdicts
  import opened LabLedger
  import opened LabGates

  datatype Status = Unstarted | Profiling | Finished(qualified: bool)

  datatype Result = Result(
    status: Status,
    profile: Option<Profile>,
    experiments: seq<Experiment>,
    winner: Option<string>,
    cost: real)

  /** ensureAuthority: reads the clock once. */
  method CheckAuthority(r: Request, env: Environment, before: seq<Event>, cost: real)
    returns (trace: seq<Event>, ok: bool)
    requires Solvent(r, env, before, cost)
    ensures trace == before + [Clock(env.now(|before|))] && Solvent(r, env, trace, cost)
    ensures Gross(trace) == Gross(before)
    ensures ok <==> env.now(|before|) < r.policy.authorizedUntil
  {
    trace := before + [Clock(env.now(|before|))];
    DisciplinedAppend(r, env, before, Clock(env.now(|before|)));
    TotalsAppend(before, Clock(env.now(|before|)));
    ok := env.now(|before|) < r.policy.authorizedUntil;
  }

  /** Calls a worker right after the clock said there is time left. */
  method Invoke(r: Request, env: Environment, before: seq<Event>, cost: real, worker: Worker)
    returns (trace: seq<Event>)
    requires Solvent(r, env, before, cost)
    requires before != [] && before[|before| - 1].Clock? && before[|before| - 1].time < r.policy.authorizedUntil
    ensures trace == before + [Call(worker, cost)] && Solvent(r, env, trace, cost)
    ensures Gross(trace) == Gross(before)
  {
    trace := before + [Call(worker, cost)];
    DisciplinedAppend(r, env, before, Call(worker, cost));
    TotalsAppend(before, Call(worker, cost));
  }

  /** Adds the cost of accepted evidence. */
  method Pay(r: Request, env: Environment, before: seq<Event>, cost: real, payee: Worker, amount: real)
    returns (trace: seq<Event>, total: real, ok: bool)
    requires Solvent(r, env, before, cost) && Fair(before, Charge(payee, amount))
    ensures trace == before + [Charge(payee, amount)] && total == cost + amount && Books(r, env, trace, total)
    ensures Gross(trace) == Gross(before) + Positive(amount)
    ensures ok <==> 0.0 <= total <= r.policy.maxCost
  {
    trace := before + [Charge(payee, amount)];
    DisciplinedAppend(r, env, before, Charge(payee, amount));
    TotalsAppend(before, Charge(payee, amount));
    total := cost + amount;
    ok := 0.0 <= total <= r.policy.maxCost;
  }

  /** The measurement of a valid build. */
  method Measure(r: Request, env: Environment, x: Experiment, i: nat, before: seq<Event>, paid: real)
    returns (y: Experiment, trace: seq<Event>, cost: real, ok: bool)
    requires Solvent(r, env, before, paid) && x.build.Some? && x.qualification.None?
    ensures Books(r, env, trace, cost)
    ensures ok ==> y == Measured(r, env, x, i) && cost == paid + MeasureCost(y) && WithinBudget(r.policy, cost)
    ensures ok ==> Gross(trace) == Gross(before) + Positive(MeasureCost(y))
    ensures !ok ==> Excused(r, env, trace, cost, i)
    ensures !ok && !WithinBudget(r.policy, cost) ==> cost == paid + MeasureCost(Measured(r, env, x, i))
    ensures Gross(trace) <= Gross(before) + Positive(MeasureCost(Measured(r, env, x, i)))
  {
    y, cost := x, paid;
    trace, ok := CheckAuthority(r, env, before, cost);
    if !ok { return; }
    trace := Invoke(r, env, trace, cost, Qualifier);
    var measured := env.qualify(i);
    if measured.None? {
      y := y.(verdict := Inconclusive, failure := QualificationFailed);
      return;
    }
    y := y.(qualification := measured);
    trace, cost, ok := Pay(r, env, trace, cost, Qualifier, measured.value.cost);
    if !ok { return; }
    var reasons := QualificationReasons(r, x.build.value, measured.value);
    PassesIff(r, x.build.value, measured.value);
    if reasons == [] {
      y := y.(verdict := Qualified);
    } else {
      assert reasons[0] in reasons;
      y := y.(verdict := Rejected, failure := GateFailed);
    }
  }

  /** The isolated build of a sourced experiment. */
  method Compile(r: Request, digest: string, env: Environment, x: Experiment, i: nat, before: seq<Event>, paid: real)
    returns (y: Experiment, trace: seq<Event>, cost: real, ok: bool)
    requires Solvent(r, env, before, paid) && x.build.None?
    ensures Books(r, env, trace, cost)
    ensures ok ==> y == Compiled(digest, env, x, i) && WithinBudget(r.policy, cost)
    ensures ok ==> cost == paid + BuildCost(y) && Gross(trace) == Gross(before) + BuildCost(y)
    ensures !ok ==> Excused(r, env, trace, cost, i)
    ensures !ok && !WithinBudget(r.policy, cost) ==> cost == paid + BuildCost(Compiled(digest, env, x, i))
    ensures Gross(trace) <= Gross(before) + BuildCost(Compiled(digest, env, x, i))
  {
    y, cost := x, paid;
    trace, ok := CheckAuthority(r, env, before, cost);
    if !ok { return; }
    ok := env.report(|trace|);
    if !ok { return; }
    trace := Invoke(r, env, trace, cost, Builder);
    var built := env.build(i);
    if built.None? {
      y := y.(verdict := Rejected, failure := BuildFailed);
      return;
    }
    if !ValidBuild(digest, built.value) {
      y := y.(verdict := Rejected, failure := BuildInvalid);
      return;
    }
    y := y.(build := built);
    trace, cost, ok := Pay(r, env, trace, cost, Builder, built.value.cost);
  }

  lemma TestedCosts(r: Request, digest: string, env: Environment, x: Experiment, i: nat)
    requires x.qualification.None?
    ensures var y, z := Compiled(digest, env, x, i), Tested(r, digest, env, x, i);
            z.build == y.build && (y.build.None? ==> MeasureCost(z) == 0.0)
  {
  }

  /** The build and qualification half of the loop body. */
  method Test(r: Request, digest: string, env: Environment, x: Experiment, i: nat, before: seq<Event>, paid: real)
    returns (y: Experiment, trace: seq<Event>, cost: real, ok: bool)
    requires Solvent(r, env, before, paid) && x.build.None? && x.qualification.None?
    ensures Books(r, env, trace, cost)
    ensures ok ==> y == Tested(r, digest, env, x, i) && WithinBudget(r.policy, paid + BuildCost(y))
    ensures ok ==> cost == paid + BuildCost(y) + MeasureCost(y) && WithinBudget(r.policy, cost)
    ensures ok ==> Gross(trace) == Gross(before) + BuildCost(y) + Positive(MeasureCost(y))
    ensures !ok ==> Excused(r, env, trace, cost, i)
    ensures var z := Tested(r, digest, env, x, i);
            && Gross(trace) <= Gross(before) + BuildCost(z) + Positive(MeasureCost(z))
            && (!ok && !WithinBudget(r.policy, cost) ==>
                  cost == paid + BuildCost(z) || cost == paid + BuildCost(z) + MeasureCost(z))
  {
    TestedCosts(r, digest, env, x, i);
    y, trace, cost, ok := Compile(r, digest, env, x, i, before, paid);
    if !ok || y.build.None? { return; }
    ok := env.report(|trace|);
    if !ok { return; }
    y, trace, cost, ok := Measure(r, env, y, i, trace, cost);
  }

  /** The first half of the loop body: find a pinned source or have one generated. */
  method Obtain(r: Request, digest: string, env: Environment, p: Profile, pins: map<string, Source>,
                c: Candidate, i: nat, before: seq<Event>, paid: real)
    returns (x: Experiment, trace: seq<Event>, cost: real, ok: bool)
    requires pins == Pins(r.sources) && Solvent(r, env, before, paid)
    ensures Books(r, env, trace, cost)
    ensures ok ==> x == Sourced(r, digest, env, p, c, i) && WithinBudget(r.policy, cost)
    ensures ok ==> cost == paid + GenerationCost(x) && Gross(trace) == Gross(before) + GenerationCost(x)
    ensures !ok ==> Excused(r, env, trace, cost, i)
    ensures !ok && !WithinBudget(r.policy, cost) ==> cost == paid + GenerationCost(Sourced(r, digest, env, p, c, i))
    ensures !ok && !WithinBudget(r.policy, cost) ==> Sourced(r, digest, env, p, c, i).source.Some?
    ensures Gross(trace) <= Gross(before) + GenerationCost(Sourced(r, digest, env, p, c, i))
  {
    x, trace, cost, ok := Untried(c), before, paid, true;
    var source := SelectSource(c, pins);
    if source.Some? {
      x := x.(source := source);
      return;
    }
    if !r.policy.allowGeneratedKernels || !env.hasGenerator {
      x := x.(failure := SourceUnavailable);
      return;
    }
    trace, ok := CheckAuthority(r, env, trace, cost);
    if !ok { return; }
    ok := env.report(|trace|);
    if !ok { return; }
    ok := !r.policy.research || env.intent(i);
    if !ok { return; }
    trace := Invoke(r, env, trace, cost, Generator);
    var generated := env.generate(i);
    if generated.None? {
      x := x.(verdict := Inconclusive, failure := GenerationFailed);
      return;
    }
    if !ValidGeneration(r, digest, c, p, generated.value) {
      x := x.(verdict := Rejected, failure := GenerationInvalid);
      return;
    }
    x := x.(generation := generated, source := Some(generated.value.source));
    trace, cost, ok := Pay(r, env, trace, cost, Generator, generated.value.cost);
  }

  lemma SourcedUntested(r: Request, digest: string, env: Environment, p: Profile, c: Candidate, i: nat)
    ensures var x := Sourced(r, digest, env, p, c, i);
            && x.build.None? && x.qualification.None?
            && Tested(r, digest, env, x, i).generation == x.generation
  {
  }

  /** One turn of the candidate loop: `next` is what the candidate must come to. */
  method Attempt(r: Request, digest: string, env: Environment, p: Profile, pins: map<string, Source>,
                 plan: seq<Candidate>, xs: seq<Experiment>, before: seq<Event>, paid: real)
    returns (x: Experiment, trace: seq<Event>, cost: real, ok: bool, ghost next: Experiment)
    requires pins == Pins(r.sources) && Solvent(r, env, before, paid)
    requires |xs| < |plan| && Faithful(r, digest, env, p, plan, xs)
    ensures Books(r, env, trace, cost) && Faithful(r, digest, env, p, plan, xs + [next])
    ensures ok ==> x == next && cost == paid + Cost(x) && Affords(r.policy, paid, x)
    ensures ok ==> Gross(trace) == Gross(before) + Spend(x)
    ensures !ok ==> Excused(r, env, trace, cost, |xs|)
    ensures !ok && !WithinBudget(r.policy, cost) ==> !Affords(r.policy, paid, next)
    ensures Gross(trace) <= Gross(before) + Spend(next)
  {
    var i, c := |xs|, plan[|xs|];
    next := Expected(r, digest, env, p, c, i);
    FaithfulSnoc(r, digest, env, p, plan, xs, next);
    SourcedUntested(r, digest, env, p, c, i);
    ExpectedPriced(r, digest, env, p, c, i);
    x, trace, cost, ok := Obtain(r, digest, env, p, pins, c, i, before, paid);
    if !ok || x.source.None? { return; }
    x, trace, cost, ok := Test(r, digest, env, x, i, trace, cost);
  }

  method CollectPins(sources: seq<Source>) returns (pins: map<string, Source>)
    ensures pins == Pins(sources)
  {
    pins := map[];
    var i := 0;
    while i < |sources|
      invariant 0 <= i <= |sources| && pins == Pins(sources[..i])
    {
      assert sources[..i + 1][..i] == sources[..i];
      pins := pins[sources[i].implementationID := sources[i]];
      i := i + 1;
    }
    assert sources[..i] == sources;
  }

  /** The experiments done so far are paid for, one after the other. */
  ghost predicate Settled(policy: Policy, paid: real, xs: seq<Experiment>, cost: real, outlay: real) {
    cost == paid + TotalCost(xs) && outlay == Outlay(xs) && AffordsAll(policy, paid, xs)
  }

  lemma SettledSnoc(policy: Policy, paid: real, xs: seq<Experiment>, cost: real, outlay: real, x: Experiment)
    requires Settled(policy, paid, xs, cost, outlay) && Affords(policy, cost, x)
    ensures Settled(policy, paid, xs + [x], cost + Cost(x), outlay + Spend(x))
  {
    TotalsExtend(policy, paid, xs, x);
  }

  /** The loop over the plan. */
  method Campaign(r: Request, digest: string, env: Environment, p: Profile, plan: seq<Candidate>,
                  before: seq<Event>, paid: real)
    returns (xs: seq<Experiment>, trace: seq<Event>, cost: real, ok: bool, ghost next: Experiment)
    requires Solvent(r, env, before, paid)
    ensures Books(r, env, trace, cost) && Faithful(r, digest, env, p, plan, xs)
    ensures ok ==> |xs| == |plan| && WithinBudget(r.policy, cost)
    ensures ok ==> Settled(r.policy, paid, xs, cost, Gross(trace) - Gross(before))
    ensures !ok ==> |xs| < |plan| && Excused(r, env, trace, cost, |xs|)
    ensures !ok ==> Faithful(r, digest, env, p, plan, xs + [next])
    ensures !ok && !WithinBudget(r.policy, cost) ==> !Affords(r.policy, paid + TotalCost(xs), next)
    ensures !ok ==> Gross(trace) - Gross(before) <= Outlay(xs) + Spend(next)
  {
    xs, trace, cost, next := [], before, paid, *;
    var pins := CollectPins(r.sources);
    var i := 0;
    while i < |plan|
      invariant 0 <= i == |xs| <= |plan| && Faithful(r, digest, env, p, plan, xs)
      invariant Solvent(r, env, trace, cost)
      invariant Settled(r.policy, paid, xs, cost, Gross(trace) - Gross(before))
    {
      ghost var spent, outlay := cost, Gross(trace) - Gross(before);
      var x;
      x, trace, cost, ok, next := Attempt(r, digest, env, p, pins, plan, xs, trace, cost);
      if !ok { return; }
      SettledSnoc(r.policy, paid, xs, spent, outlay, x);
      xs := xs + [x];
      i := i + 1;
    }
    ok := true;
  }

  /** The engine is equipped and capable, and a trusted profile comes back. */
  ghost predicate Profiled(r: Request, digest: string, env: Environment) {
    env.equipped && env.capable && env.capture.Some? && TrustedProfile(r, digest, env.capture.value)
  }

  /** Moreover there is a plan. */
  ghost predicate Ready(r: Request, digest: string, env: Environment) {
    Profiled(r, digest, env) && env.plan.Some?
  }

  /** The campaign started: moreover the request was admissible. */
  ghost predicate Started(r: Request, digest: string, env: Environment) {
    Admissible(r) && Ready(r, digest, env)
  }

  /** The profile and then every experiment that is due can be paid for. */
  ghost predicate Affordable(policy: Policy, p: Profile, due: seq<Experiment>) {
    WithinBudget(policy, p.cost) && AffordsAll(policy, p.cost, due)
  }

  lemma Unaffordable(policy: Policy, p: Profile, xs: seq<Experiment>, next: Experiment, due: seq<Experiment>)
    requires xs + [next] <= due && !Affords(policy, p.cost + TotalCost(xs), next)
    ensures !Affordable(policy, p, due)
  {
    TotalsExtend(policy, p.cost, xs, next);
    assert due[..|xs| + 1] == xs + [next];
    if AffordsAll(policy, p.cost, due) {
      AffordsPrefix(policy, p.cost, due, |xs| + 1);
    }
  }

  /** A campaign cut short has paid out no more than what is due costs, and left alone it
      cannot afford that. */
  lemma CutShort(r: Request, digest: string, env: Environment, p: Profile, plan: seq<Candidate>,
                 xs: seq<Experiment>, next: Experiment, trace: seq<Event>, cost: real)
    requires Books(r, env, trace, cost) && Excused(r, env, trace, cost, |xs|)
    requires Faithful(r, digest, env, p, plan, xs + [next])
    requires !WithinBudget(r.policy, cost) ==> !Affords(r.policy, p.cost + TotalCost(xs), next)
    ensures Outlay(xs) + Spend(next) <= Outlay(Due(r, digest, env, p, plan))
    ensures Unhindered(r, env) ==> !Affordable(r.policy, p, Due(r, digest, env, p, plan))
  {
    var due := Due(r, digest, env, p, plan);
    FaithfulIffDue(r, digest, env, p, plan, xs + [next]);
    DuePriced(r, digest, env, p, plan);
    OutlayPrefix(xs + [next], due);
    TotalsExtend(r.policy, p.cost, xs, next);
    if Unhindered(r, env) {
      OnlyMoneyStops(r, env, trace, cost, |xs|);
      Unaffordable(r.policy, p, xs, next, due);
    }
  }

  /** The plan is carried out and the winner chosen. */
  method Search(r: Request, digest: string, env: Environment, p: Profile, plan: seq<Candidate>, before: seq<Event>)
    returns (xs: seq<Experiment>, winner: Option<string>, trace: seq<Event>, cost: real, ok: bool)
    requires TrustedProfile(r, digest, p) && Solvent(r, env, before, p.cost) && Gross(before) == p.cost
    ensures Books(r, env, trace, cost) && Faithful(r, digest, env, p, plan, xs) && Documented(xs)
    ensures forall i :: 0 <= i < |xs| ==> (xs[i].verdict == Qualified <==> BoundToRequest(r, digest, p, xs[i]))
    ensures ok ==> |xs| == |plan| && cost == p.cost + TotalCost(xs) && WithinBudget(r.policy, cost)
    ensures ok ==> Gross(trace) == p.cost + Outlay(xs)
    ensures !ok ==> Excused(r, env, trace, cost, |xs|)
    ensures var due := Due(r, digest, env, p, plan);
            && Gross(trace) <= p.cost + Outlay(due)
            && (ok ==> Outlay(xs) == Outlay(due))
            && (Unhindered(r, env) ==> (ok <==> Affordable(r.policy, p, due)))
    ensures ok ==> (winner.Some? <==> exists i :: 0 <= i < |xs| && xs[i].verdict == Qualified)
    ensures winner.Some? ==> IsWinner(xs, winner.value)
  {
    ghost var next;
    winner := None;
    xs, trace, cost, ok, next := Campaign(r, digest, env, p, plan, before, p.cost);
    FaithfulDocumented(r, digest, env, p, plan, xs);
    if !ok {
      CutShort(r, digest, env, p, plan, xs, next, trace, cost);
      return;
    }
    FaithfulIffDue(r, digest, env, p, plan, xs);
    assert xs == Due(r, digest, env, p, plan);
    winner := Winner(xs);
    ok := winner.None? || env.report(|trace|);
  }

  /** The trace only holds licensed calls, the recorded cost is what was charged, and a
      campaign that does not succeed has not started or has an excuse. */
  ghost predicate Lawful(r: Request, env: Environment, started: bool, result: Result, ok: bool, trace: seq<Event>) {
    && Books(r, env, trace, result.cost)
    && (ok ==> started && 0.0 <= result.cost <= r.policy.maxCost)
    && (!ok ==> !started || Excused(r, env, trace, result.cost, |result.experiments|))
  }

  /** Experiments are a prefix of the plan, each exactly what its evidence makes of it, and
      exactly the bound ones are qualified; on success there is one per candidate. */
  ghost predicate Recorded(r: Request, digest: string, env: Environment, started: bool, result: Result, ok: bool) {
    && (result.experiments != [] || ok ==>
          && started && env.capture.Some? && env.plan.Some? && result.profile == env.capture
          && Faithful(r, digest, env, env.capture.value, env.plan.value, result.experiments))
    && (forall i :: 0 <= i < |result.experiments| ==>
          (result.experiments[i].verdict == Qualified <==>
           env.capture.Some? && BoundToRequest(r, digest, env.capture.value, result.experiments[i])))
    && (ok ==> |result.experiments| == |env.plan.value|)
  }

  /** On success the cost is the profile's and the experiments', and what was paid out is the
      cost and the refunds.  Over what the workers will report, which is given: no campaign pays
      out more than the profile and the outlay that is due, a successful one keeps within the
      limit exactly when that does, and one left alone succeeds exactly when it can afford each
      charge in turn. */
  ghost predicate Paid(r: Request, digest: string, env: Environment, started: bool, result: Result, ok: bool,
                       trace: seq<Event>)
  {
    && (ok ==> env.capture.Some? && result.cost == env.capture.value.cost + TotalCost(result.experiments))
    && (ok ==> Gross(trace) == result.cost + Refunds(result.experiments))
    && (started && env.capture.Some? && env.plan.Some? ==>
          var p, due := env.capture.value, Due(r, digest, env, env.capture.value, env.plan.value);
          && Gross(trace) <= p.cost + Outlay(due)
          && (ok ==> (Gross(trace) <= r.policy.maxCost <==> p.cost + Outlay(due) <= r.policy.maxCost))
          && (Unhindered(r, env) ==> (ok <==> Affordable(r.policy, p, due))))
  }

  /** The state is qualified exactly when some experiment is; then the winner is one that is no
      worse than any qualified experiment. */
  ghost predicate Judged(result: Result, ok: bool) {
    && Documented(result.experiments)
    && (ok ==> result.status == Finished(result.winner.Some?))
    && (ok ==> (result.winner.Some? <==>
                exists i :: 0 <= i < |result.experiments| && result.experiments[i].verdict == Qualified))
    && (result.winner.Some? ==> IsWinner(result.experiments, result.winner.value))
  }

  /** The baseline: authority, capabilities and a profile that is trusted and can be paid for. */
  method CaptureProfile(r: Request, digest: string, env: Environment)
    returns (trace: seq<Event>, cost: real, status: Status, profile: Option<Profile>, ok: bool)
    requires r.policy.maxCost > 0.0
    ensures Books(r, env, trace, cost)
    ensures ok ==> Profiled(r, digest, env) && profile == env.capture && cost == env.capture.value.cost
    ensures ok ==> Gross(trace) == cost && WithinBudget(r.policy, cost)
    ensures Profiled(r, digest, env) ==> Gross(trace) <= env.capture.value.cost
    ensures !ok && Profiled(r, digest, env) ==> Excused(r, env, trace, cost, 0)
    ensures !ok && Profiled(r, digest, env) && Unhindered(r, env) ==> !WithinBudget(r.policy, env.capture.value.cost)
  {
    trace, cost, status, profile, ok := [], 0.0, Unstarted, None, false;
    if !env.equipped { return; }
    trace, ok := CheckAuthority(r, env, trace, cost);
    if !ok { return; }
    if !env.capable { ok := false; return; }
    status := Profiling;
    ok := env.report(|trace|);
    if !ok { return; }
    trace := Invoke(r, env, trace, cost, Profiler);
    if env.capture.None? { ok := false; return; }
    var p := env.capture.value;
    ProfileIff(r, digest, p);
    if !ValidProfile(r, digest, p) { ok := false; return; }
    profile := Some(p);
    trace, cost, ok := Pay(r, env, trace, cost, Profiler, p.cost);
    ok := ok && env.report(|trace|);
  }

  /** The campaign after its request has been accepted. */
  method Conduct(r: Request, digest: string, env: Environment) returns (result: Result, ok: bool, trace: seq<Event>)
    requires r.policy.maxCost > 0.0
    ensures Lawful(r, env, Ready(r, digest, env), result, ok, trace)
    ensures Recorded(r, digest, env, Ready(r, digest, env), result, ok)
    ensures Paid(r, digest, env, Ready(r, digest, env), result, ok, trace)
    ensures Judged(result, ok)
  {
    var cost, status, profile;
    trace, cost, status, profile, ok := CaptureProfile(r, digest, env);
    result := Result(status, profile, [], None, cost);
    if env.capture.Some? && env.plan.Some? {
      DueOutlay(r, digest, env, env.capture.value, env.plan.value);
    }
    if !ok { return; }
    if env.plan.None? { ok := false; return; }
    var xs, winner;
    xs, winner, trace, cost, ok := Search(r, digest, env, env.capture.value, env.plan.value, trace);
    result := result.(experiments := xs, winner := winner, cost := cost);
    OutlaySplit(xs);
    if ok || winner.Some? {
      result := result.(status := Finished(winner.Some?));
    }
  }

  /** Engine.Run, on a request that has been normalised: nothing is called unless the request
      is admissible. */
  method Run(r: Request, digest: string, env: Environment) returns (result: Result, ok: bool, trace: seq<Event>)
    ensures Lawful(r, env, Started(r, digest, env), result, ok, trace)
    ensures Recorded(r, digest, env, Started(r, digest, env), result, ok)
    ensures Paid(r, digest, env, Started(r, digest, env), result, ok, trace)
    ensures Judged(result, ok)
    ensures !Admissible(r) ==> trace == []
  {
    var admissible := ValidateRequest(r);
    if !admissible {
      result, ok, trace := Result(Unstarted, None, [], None, 0.0), false, [];
      return;
    }
    result, ok, trace := Conduct(r, digest, env);
  }
}
