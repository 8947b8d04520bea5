/** A campaign that pays out more than its limit while every call is licensed. */
module LabOverspend {
  import opened Wrappers
  import opened Text
  import opened LabEvidence
  import opened LabVerdicts
  import opened LabLedger
  import opened LabEngine
  import opened LabGates

  function SomeDigest(): (d: string)
    ensures IsDigest(d)
  {
    var prefix, zeros := "sha256:", Zeros(64);
    var d := prefix + zeros;
    assert d[..7] == prefix && d[7..] == zeros && d[70] == '0' && d[0] == 's';
    assert TrimSpace(d) == d;
    d
  }

  function SomeRevision(): (v: string)
    ensures IsRevision(v)
  {
    assert TrimSpace(Zeros(40)) == Zeros(40);
    Zeros(40)
  }

  function Sample(): Artifact {
    Artifact("kernel", "s3://kernel", SomeDigest(), 1)
  }

  const HARDWARE := Hardware("nvidia", "H100", "9.0")
  const TOPOLOGY := Topology("aggregated", 1, 1, 1, 1, 1, 0, 0)
  const MEDIA := Media(0, 0, 0, 0, 0, 0, 0)

  /** Ten dollars, until time one, and one pinned source. */
  function TenDollars(): Request {
    Request(
      REQUEST_SCHEMA, "tenant", "campaign", "candidate",
      Model("repository", SomeRevision()), Runtime("vllm", "1", SomeDigest()), HARDWARE, TOPOLOGY,
      Workload(SomeDigest(), "text", 1, 1, 1, 1, MEDIA, "suite", "replay"),
      Policy(2, 10.0, 0.05, 1.05, 1.02, 1.01, 0.0, false, false, false, false, false, false, false, 1),
      [Source("triton", SomeRevision(), "license", [Sample()])])
  }

  function FreeProfile(): Profile {
    Profile(SomeDigest(), "tool", "1", HARDWARE, SomeDigest(), TOPOLOGY, SomeDigest(), 1, 2, 0.0, SomeDigest())
  }

  /** Either build costs ten dollars. */
  function CostlyBuild(): Build {
    Build(SomeDigest(), "builder", "1", "env", SomeDigest(), "passed", 1, [Sample()], SomeDigest(), 10.0)
  }

  function Measurement(cost: real): Qualification {
    Qualification(SomeDigest(), HARDWARE, SomeDigest(), TOPOLOGY, SomeDigest(), "text", MEDIA, "replay", "suite",
                  SomeDigest(), true, true, true, true, true, 2.0, 2.0, 0.0, 0.0, SomeDigest(), "b", "q", cost, 1)
  }

  const PLAN := [Candidate("first", [], ["triton"]), Candidate("second", [], ["triton"])]

  /** The first measurement reports a cost of minus ten dollars. */
  function Reported(i: nat): real {
    if i == 0 then -10.0 else 0.0
  }

  function Refunding(): Environment {
    Environment(
      true, false, true, Some(FreeProfile()), Some(PLAN), _ => true, _ => None, _ => Some(CostlyBuild()),
      (i: nat) => Some(Measurement(Reported(i))), _ => 0, _ => true)
  }

  lemma BothTested(i: nat)
    requires i < 2
    ensures var x := Expected(TenDollars(), SomeDigest(), Refunding(), FreeProfile(), PLAN[i], i);
            GenerationCost(x) == 0.0 && BuildCost(x) == 10.0 && MeasureCost(x) == Reported(i)
  {
    assert ValidArtifact(Sample());
    assert ValidBuild(SomeDigest(), CostlyBuild());
    var pins, names := Pins(TenDollars().sources), Preferred(PLAN[i].existing) + PLAN[i].compilers;
    assert TenDollars().sources[0].implementationID in pins;
    assert names == ["triton"];
    assert FirstPinned(names, pins) == Some(pins["triton"]);
    assert Refunding().qualify(i) == Some(Measurement(Reported(i)));
  }

  lemma TwoBuilds(policy: Policy, x: Experiment, y: Experiment)
    requires policy.maxCost == 10.0
    requires GenerationCost(x) == 0.0 && BuildCost(x) == 10.0 && MeasureCost(x) == -10.0
    requires GenerationCost(y) == 0.0 && BuildCost(y) == 10.0 && MeasureCost(y) == 0.0
    ensures AffordsAll(policy, 0.0, [x, y]) && TotalCost([x, y]) == 10.0 && Outlay([x, y]) == 20.0
  {
    TotalsExtend(policy, 0.0, [], x);
    TotalsExtend(policy, 0.0, [x], y);
    assert [] + [x] == [x] && [x] + [y] == [x, y];
  }

  /** A campaign that pays for two builds of ten dollars under a limit of ten. */
  method PayTwice(r: Request, digest: string, env: Environment, ghost x: Experiment, ghost y: Experiment)
    returns (result: Result, ok: bool, trace: seq<Event>)
    requires Started(r, digest, env) && Unhindered(r, env) && |env.plan.value| == 2
    requires env.capture.value.cost == 0.0 && r.policy.maxCost == 10.0
    requires Faithful(r, digest, env, env.capture.value, env.plan.value, [x, y])
    requires GenerationCost(x) == 0.0 && BuildCost(x) == 10.0 && MeasureCost(x) == -10.0
    requires GenerationCost(y) == 0.0 && BuildCost(y) == 10.0 && MeasureCost(y) == 0.0
    ensures ok && Books(r, env, trace, result.cost)
    ensures result.cost <= r.policy.maxCost < Gross(trace)
  {
    TwoBuilds(r.policy, x, y);
    FaithfulIffDue(r, digest, env, env.capture.value, env.plan.value, [x, y]);
    assert Due(r, digest, env, env.capture.value, env.plan.value) == [x, y];
    result, ok, trace := Run(r, digest, env);
  }

  lemma IdentityTidy()
    ensures IdentityTrimmed(TenDollars())
  {
  }

  lemma NamesTidy()
    ensures NamesTrimmed(TenDollars())
  {
  }

  lemma AlreadyNormalized()
    ensures Normalized(TenDollars())
  {
    IdentityTidy();
    NamesTidy();
  }

  /** The engine takes the request as it is and does not refuse it. */
  lemma AdmittedAsIs()
    ensures Normalized(TenDollars()) && LabGates.Admissible(TenDollars())
  {
    AlreadyNormalized();
    assert ValidArtifact(Sample());
    assert ValidRequest(TenDollars());
    RequestIff(TenDollars());
  }

  lemma StartsUnhindered()
    ensures Started(TenDollars(), SomeDigest(), Refunding()) && Unhindered(TenDollars(), Refunding())
  {
    AdmittedAsIs();
    ProfileIff(TenDollars(), SomeDigest(), FreeProfile());
  }

  /** What the two candidates come to. */
  lemma TwoDue() returns (x: Experiment, y: Experiment)
    ensures Faithful(TenDollars(), SomeDigest(), Refunding(), FreeProfile(), PLAN, [x, y])
    ensures GenerationCost(x) == 0.0 && BuildCost(x) == 10.0 && MeasureCost(x) == -10.0
    ensures GenerationCost(y) == 0.0 && BuildCost(y) == 10.0 && MeasureCost(y) == 0.0
  {
    var r, d, env, p := TenDollars(), SomeDigest(), Refunding(), FreeProfile();
    BothTested(0);
    BothTested(1);
    x, y := Expected(r, d, env, p, PLAN[0], 0), Expected(r, d, env, p, PLAN[1], 1);
    FaithfulSnoc(r, d, env, p, PLAN, [], x);
    FaithfulSnoc(r, d, env, p, PLAN, [x], y);
    assert [] + [x] == [x] && [x] + [y] == [x, y];
  }

  /** A request the engine accepts as it is, a campaign that succeeds with every call
      licensed, and twenty dollars paid out of ten. */
  method Overspend() returns (result: Result, ok: bool, trace: seq<Event>)
    ensures Normalized(TenDollars()) && LabGates.Admissible(TenDollars())
    ensures ok && Books(TenDollars(), Refunding(), trace, result.cost)
    ensures result.cost <= TenDollars().policy.maxCost < Gross(trace)
  {
    AdmittedAsIs();
    StartsUnhindered();
    ghost var x, y := TwoDue();
    result, ok, trace := PayTwice(TenDollars(), SomeDigest(), Refunding(), x, y);
  }
}
