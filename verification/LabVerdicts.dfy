/** What each experiment of a campaign must come to, and what a qualified one is bound to. */
module LabVerdicts {
  import opened Wrappers
  import opened LabEvidence
  import opened LabRanking
  import opened LabGates

  /** Everything the engine does not control.  A worker's answer for candidate i is arbitrary,
      and so are the clock and the progress callback, which are asked by trace position. */
  datatype Environment = Environment(
    equipped: bool,
    hasGenerator: bool,
    capable: bool,
    capture: Option<Profile>,
    plan: Option<seq<Candidate>>,
    intent: nat -> bool,
    generate: nat -> Option<Generation>,
    build: nat -> Option<Build>,
    qualify: nat -> Option<Qualification>,
    now: nat -> int,
    report: nat -> bool)

  // ----- What each experiment must come to

  ghost function Measured(r: Request, env: Environment, x: Experiment, i: nat): Experiment
    requires x.build.Some?
  {
    match env.qualify(i)
    case None => x.(verdict := Inconclusive, failure := QualificationFailed)
    case Some(q) =>
      var y := x.(qualification := Some(q));
      if Passes(r, x.build.value, q) then y.(verdict := Qualified)
      else y.(verdict := Rejected, failure := GateFailed)
  }

  /** The experiment once its build is in: it has evidence only if that is valid. */
  ghost function Compiled(digest: string, env: Environment, x: Experiment, i: nat): Experiment {
    match env.build(i)
    case None => x.(verdict := Rejected, failure := BuildFailed)
    case Some(b) =>
      if ValidBuild(digest, b) then x.(build := Some(b)) else x.(verdict := Rejected, failure := BuildInvalid)
  }

  ghost function Tested(r: Request, digest: string, env: Environment, x: Experiment, i: nat): Experiment {
    var y := Compiled(digest, env, x, i);
    if y.build.None? then y else Measured(r, env, y, i)
  }

  function Untried(c: Candidate): Experiment {
    Experiment(c, None, None, None, None, Blocked, NoFailure)
  }

  /** The pinned sources by name; a later entry replaces an earlier one. */
  ghost function Pins(sources: seq<Source>): (pins: map<string, Source>)
    ensures forall n :: n in pins ==> pins[n] in sources && pins[n].implementationID == n
    ensures forall k :: 0 <= k < |sources| ==> sources[k].implementationID in pins
  {
    if sources == [] then map[] else
      var last := sources[|sources| - 1];
      Pins(sources[..|sources| - 1])[last.implementationID := last]
  }

  /** The experiment once its source is settled: pinned, generated, or missing for good. */
  ghost function Sourced(r: Request, digest: string, env: Environment, p: Profile, c: Candidate, i: nat): Experiment {
    var x := Untried(c);
    match Selected(c, Pins(r.sources))
    case Some(source) => x.(source := Some(source))
    case None =>
      if !r.policy.allowGeneratedKernels || !env.hasGenerator then x.(failure := SourceUnavailable) else
        match env.generate(i)
        case None => x.(verdict := Inconclusive, failure := GenerationFailed)
        case Some(g) =>
          if !ValidGeneration(r, digest, c, p, g) then x.(verdict := Rejected, failure := GenerationInvalid)
          else x.(generation := Some(g), source := Some(g.source))
  }

  ghost function Expected(r: Request, digest: string, env: Environment, p: Profile, c: Candidate, i: nat): Experiment {
    var x := Sourced(r, digest, env, p, c, i);
    if x.source.None? then x else Tested(r, digest, env, x, i)
  }

  // ----- What an experiment comes to, by what the workers return

  /** The request pins a source under a name the candidate may be built from. */
  ghost predicate HasPin(r: Request, c: Candidate) {
    exists k :: 0 <= k < |r.sources| && Names(c, r.sources[k].implementationID)
  }

  ghost predicate MayGenerate(r: Request, env: Environment) {
    r.policy.allowGeneratedKernels && env.hasGenerator
  }

  ghost predicate GeneratedFor(r: Request, digest: string, env: Environment, p: Profile, c: Candidate, i: nat) {
    MayGenerate(r, env) && env.generate(i).Some? && TrustedGeneration(r, digest, c, p, env.generate(i).value)
  }

  /** The candidate has a source to build from. */
  ghost predicate HasSource(r: Request, digest: string, env: Environment, p: Profile, c: Candidate, i: nat) {
    HasPin(r, c) || GeneratedFor(r, digest, env, p, c, i)
  }

  /** ... and a build to measure. */
  ghost predicate HasBuild(r: Request, digest: string, env: Environment, p: Profile, c: Candidate, i: nat) {
    HasSource(r, digest, env, p, c, i) && env.build(i).Some? && TrustedBuild(digest, env.build(i).value)
  }

  lemma PinIff(r: Request, c: Candidate)
    ensures Selected(c, Pins(r.sources)).Some? <==> HasPin(r, c)
    ensures Selected(c, Pins(r.sources)).Some? ==> Selected(c, Pins(r.sources)).value in r.sources
  {
    var pins := Pins(r.sources);
    SelectedExact(c, pins);
    if HasPin(r, c) {
      var k :| 0 <= k < |r.sources| && Names(c, r.sources[k].implementationID);
      assert r.sources[k].implementationID in pins;
    }
    if Selected(c, pins).Some? {
      var s := Selected(c, pins).value;
      var k :| 0 <= k < |r.sources| && r.sources[k] == s;
    }
  }

  /** What a failure makes of an experiment. */
  ghost function VerdictOf(f: Failure): Verdict {
    match f
    case NoFailure => Qualified
    case SourceUnavailable => Blocked
    case GenerationFailed => Inconclusive
    case QualificationFailed => Inconclusive
    case _ => Rejected
  }

  /** Where the source comes from, or why there is none. */
  lemma SourcedExact(r: Request, digest: string, env: Environment, p: Profile, c: Candidate, i: nat)
    ensures var x := Sourced(r, digest, env, p, c, i);
            && x.candidate == c && x.build == None && x.qualification == None
            && (x.source.Some? <==> HasSource(r, digest, env, p, c, i))
            && (x.failure == SourceUnavailable <==> !HasPin(r, c) && !MayGenerate(r, env))
            && (x.failure == GenerationFailed <==> !HasPin(r, c) && MayGenerate(r, env) && env.generate(i) == None)
            && (x.failure == GenerationInvalid <==>
                !HasPin(r, c) && MayGenerate(r, env) && env.generate(i) != None
                && !GeneratedFor(r, digest, env, p, c, i))
            && (x.failure == NoFailure <==> x.source.Some?)
            && x.verdict == (if x.source.Some? then Blocked else VerdictOf(x.failure))
            && x.generation == (if !HasPin(r, c) && x.source.Some? then env.generate(i) else None)
            && (x.source.Some? && HasPin(r, c) ==> x.source.value in r.sources)
            && (x.source.Some? && !HasPin(r, c) ==> x.source.value == env.generate(i).value.source)
  {
    PinIff(r, c);
    if env.generate(i).Some? {
      GenerationIff(r, digest, c, p, env.generate(i).value);
    }
  }

  /** Build and measurement of an experiment that has its source. */
  lemma TestedExact(r: Request, digest: string, env: Environment, x: Experiment, i: nat)
    requires x.build == None && x.qualification == None && x.failure == NoFailure
    ensures var y := Tested(r, digest, env, x, i);
            var built := env.build(i).Some? && TrustedBuild(digest, env.build(i).value);
            && y.candidate == x.candidate && y.source == x.source && y.generation == x.generation
            && y.verdict == VerdictOf(y.failure)
            && (y.failure == BuildFailed <==> env.build(i) == None)
            && (y.failure == BuildInvalid <==> env.build(i) != None && !built)
            && (y.failure == QualificationFailed <==> built && env.qualify(i) == None)
            && (y.failure == GateFailed <==>
                built && env.qualify(i) != None
                  && exists g :: FallsShort(r, env.build(i).value, env.qualify(i).value, g))
            && (y.failure == NoFailure <==>
                built && env.qualify(i) != None
                  && forall g :: !FallsShort(r, env.build(i).value, env.qualify(i).value, g))
            && y.build == (if built then env.build(i) else None)
            && y.qualification == (if built then env.qualify(i) else None)
  {
    if env.build(i).Some? {
      BuildIff(digest, env.build(i).value);
      if env.qualify(i).Some? {
        PassesIff(r, env.build(i).value, env.qualify(i).value);
      }
    }
  }

  /** Each failure happens for exactly one state of the evidence, and the verdict follows. */
  lemma ExperimentExact(r: Request, digest: string, env: Environment, p: Profile, c: Candidate, i: nat)
    ensures var x := Expected(r, digest, env, p, c, i);
            var sourced, built := HasSource(r, digest, env, p, c, i), HasBuild(r, digest, env, p, c, i);
            && x.candidate == c && x.verdict == VerdictOf(x.failure)
            && (x.failure == SourceUnavailable <==> !HasPin(r, c) && !MayGenerate(r, env))
            && (x.failure == GenerationFailed <==> !HasPin(r, c) && MayGenerate(r, env) && env.generate(i) == None)
            && (x.failure == GenerationInvalid <==>
                !sourced && MayGenerate(r, env) && env.generate(i) != None)
            && (x.failure == BuildFailed <==> sourced && env.build(i) == None)
            && (x.failure == BuildInvalid <==> sourced && env.build(i) != None && !built)
            && (x.failure == QualificationFailed <==> built && env.qualify(i) == None)
            && (x.failure == GateFailed <==>
                built && env.qualify(i) != None
                  && exists g :: FallsShort(r, env.build(i).value, env.qualify(i).value, g))
            && (x.failure == NoFailure <==>
                built && env.qualify(i) != None
                  && forall g :: !FallsShort(r, env.build(i).value, env.qualify(i).value, g))
            && x.build == (if built then env.build(i) else None)
            && x.qualification == (if built then env.qualify(i) else None)
            && x.generation == (if !HasPin(r, c) && sourced then env.generate(i) else None)
            && (x.source.Some? <==> sourced)
            && (HasPin(r, c) ==> x.source.value in r.sources)
            && (!HasPin(r, c) && sourced ==> x.source.value == env.generate(i).value.source)
  {
    SourcedExact(r, digest, env, p, c, i);
    var x := Sourced(r, digest, env, p, c, i);
    if x.source.Some? {
      TestedExact(r, digest, env, x, i);
    }
  }

  // ----- What a qualified experiment is bound to

  /** The source is one the request pins, or generated for this request, candidate and profile. */
  ghost predicate SourceBound(r: Request, digest: string, p: Profile, x: Experiment) {
    && x.source.Some?
    && match x.generation
       case None => x.source.value in r.sources
       case Some(g) =>
         && x.source.value == g.source && r.policy.allowGeneratedKernels
         && TrustedGeneration(r, digest, x.candidate, p, g)
  }

  /** Correct, and whatever else the policy asks for. */
  ghost predicate MeetsPolicy(p: Policy, q: Qualification) {
    && q.correctnessPassed
    && (p.requireHiddenShapes ==> q.hiddenShapesPassed)
    && (p.requireSanitizer ==> q.sanitizerPassed)
    && (p.requireServingReplay ==> q.servingReplayMeasured)
    && (p.requireQuality ==> q.qualityPassed && q.qualityEvidenceID != "")
    && q.benchmarkEvidenceID != ""
    && q.kernelSpeedup >= p.minKernelSpeedup && q.endToEndSpeedup >= p.targetEndToEndSpeedup
    && q.memoryRegression <= p.maxMemoryRegression
  }

  /** All evidence carries the request's digest, both measurements are of its hardware, topology,
      image and workload, the build is trusted, the artifact measured is a retrievable one of
      that build, and no gate fails. */
  ghost predicate BoundToRequest(r: Request, digest: string, p: Profile, x: Experiment) {
    && SourceBound(r, digest, p, x)
    && x.build.Some? && x.qualification.Some?
    && var b, q := x.build.value, x.qualification.value;
       && TrustedProfile(r, digest, p) && TrustedBuild(digest, b)
       && q.inputDigest == digest && q.hardware == p.hardware && q.topology == p.topology
       && q.runtimeImage == p.runtimeImage && q.workloadDigest == p.workloadDigest
       && (exists k :: 0 <= k < |b.artifacts| && Retrievable(b.artifacts[k])
                       && Text.EqualFold(b.artifacts[k].sha256, q.buildArtifactDigest))
       && q.modality == r.workload.modality && q.media == r.workload.media
       && q.replay == r.workload.replay && q.qualitySuite == r.workload.qualitySuite
       && IsSha256(q.profilerArtifactDigest) && q.measuredAt != 0 && q.cost >= 0.0
       && MeetsPolicy(r.policy, q)
  }

  lemma PolicyMetIff(r: Request, q: Qualification)
    ensures MeetsPolicy(r.policy, q) <==> forall g :: !Lacks(r, q, g)
  {
    if !MeetsPolicy(r.policy, q) {
      assert || Lacks(r, q, CorrectnessFailed) || Lacks(r, q, ShapesFailed) || Lacks(r, q, SanitizerFailed)
             || Lacks(r, q, KernelTooSlow) || Lacks(r, q, ReplayMissing) || Lacks(r, q, TargetMissed)
             || Lacks(r, q, MemoryRegressed) || Lacks(r, q, QualityMissing) || Lacks(r, q, BenchmarkMissing);
    }
  }

  lemma MatchingBinds(r: Request, digest: string, p: Profile, b: Build, q: Qualification)
    requires TrustedProfile(r, digest, p) && TrustedBuild(digest, b) && Matching(r, b, q)
    ensures q.inputDigest == digest && q.hardware == p.hardware && q.topology == p.topology
    ensures q.runtimeImage == p.runtimeImage && q.workloadDigest == p.workloadDigest
    ensures exists k :: 0 <= k < |b.artifacts| && Retrievable(b.artifacts[k])
                        && Text.EqualFold(b.artifacts[k].sha256, q.buildArtifactDigest)
  {
    var k :| 0 <= k < |b.artifacts| && Text.EqualFold(b.artifacts[k].sha256, q.buildArtifactDigest);
    assert Retrievable(b.artifacts[k]);
  }

  /** Evidence binding: whatever the workers return, an experiment is qualified exactly when
      its evidence is bound to the request and passes every gate. */
  lemma QualifiedIffBound(r: Request, digest: string, env: Environment, p: Profile, c: Candidate, i: nat)
    requires TrustedProfile(r, digest, p)
    ensures var x := Expected(r, digest, env, p, c, i);
            && x.candidate == c
            && (x.verdict == Qualified <==> BoundToRequest(r, digest, p, x))
            && (x.verdict == Qualified <==> x.failure == NoFailure)
            && (x.verdict == Qualified ==> Ranked(x))
  {
    ExperimentExact(r, digest, env, p, c, i);
    var x := Expected(r, digest, env, p, c, i);
    if x.build.Some? && x.qualification.Some? {
      var b, q := x.build.value, x.qualification.value;
      PolicyMetIff(r, q);
      PassesIff(r, b, q);
      if Matching(r, b, q) {
        MatchingBinds(r, digest, p, b, q);
      }
    }
  }

  /** One experiment per candidate, in plan order, each what its evidence makes of it. */
  ghost predicate Faithful(r: Request, digest: string, env: Environment, p: Profile, plan: seq<Candidate>,
                           xs: seq<Experiment>) {
    && |xs| <= |plan|
    && forall i {:trigger Expected(r, digest, env, p, plan[i], i)} :: 0 <= i < |xs| ==>
       xs[i] == Expected(r, digest, env, p, plan[i], i)
  }

  /** The experiments the whole plan comes to. */
  ghost function Due(r: Request, digest: string, env: Environment, p: Profile, plan: seq<Candidate>): seq<Experiment> {
    seq(|plan|, i requires 0 <= i < |plan| => Expected(r, digest, env, p, plan[i], i))
  }

  /** A list is faithful as far as it goes exactly when it is a beginning of what is due. */
  lemma FaithfulIffDue(r: Request, digest: string, env: Environment, p: Profile, plan: seq<Candidate>,
                       xs: seq<Experiment>)
    ensures Faithful(r, digest, env, p, plan, xs) <==> xs <= Due(r, digest, env, p, plan)
  {
    var due := Due(r, digest, env, p, plan);
    if Faithful(r, digest, env, p, plan, xs) {
      forall i | 0 <= i < |xs| ensures xs[i] == due[i] {
        assert xs[i] == Expected(r, digest, env, p, plan[i], i);
      }
    }
    if xs <= due {
      forall i | 0 <= i < |xs| ensures xs[i] == Expected(r, digest, env, p, plan[i], i) {
        assert xs[i] == due[i];
      }
    }
  }

  lemma FaithfulSnoc(r: Request, digest: string, env: Environment, p: Profile, plan: seq<Candidate>,
                     xs: seq<Experiment>, x: Experiment)
    requires Faithful(r, digest, env, p, plan, xs) && |xs| < |plan|
    requires x == Expected(r, digest, env, p, plan[|xs|], |xs|)
    ensures Faithful(r, digest, env, p, plan, xs + [x])
  {
    forall i | 0 <= i < |xs + [x]| ensures (xs + [x])[i] == Expected(r, digest, env, p, plan[i], i) {
      assert i < |xs| || i == |xs|;
    }
  }

  /** A faithful list is in plan order, and exactly its bound experiments are qualified. */
  lemma FaithfulDocumented(r: Request, digest: string, env: Environment, p: Profile, plan: seq<Candidate>,
                           xs: seq<Experiment>)
    requires TrustedProfile(r, digest, p) && Faithful(r, digest, env, p, plan, xs)
    ensures Documented(xs)
    ensures forall i :: 0 <= i < |xs| ==>
              xs[i].candidate == plan[i] && (xs[i].verdict == Qualified <==> BoundToRequest(r, digest, p, xs[i]))
  {
    forall i | 0 <= i < |xs|
      ensures xs[i].candidate == plan[i] && (xs[i].verdict == Qualified <==> BoundToRequest(r, digest, p, xs[i]))
      ensures xs[i].verdict == Qualified ==> Ranked(xs[i])
    {
      QualifiedIffBound(r, digest, env, p, plan[i], i);
    }
  }
}
