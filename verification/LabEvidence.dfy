/** Requests, worker evidence and the gates the accelerator lab puts it through.
    Costs and speedups are reals; times are integers with 0 the zero time. */
module LabEvidence {
  import opened Wrappers
  import opened Text

  const REQUEST_SCHEMA := "infercrane.accelerator-lab-request/v1"

  datatype Hardware = Hardware(vendor: string, accelerator: string, computeCapability: string)

  datatype Topology = Topology(mode: string, nodes: int, accelerators: int, tensorParallel: int,
                               pipelineParallel: int, expertParallel: int, prefillReplicas: int, decodeReplicas: int)

  datatype Media = Media(imagesPerRequest: int, imageWidth: int, imageHeight: int, videoFrames: int,
                         videoFPS: int, audioSeconds: int, audioSampleRate: int)

  datatype Workload = Workload(
    digest: string,
    modality: string,
    batchSize: int,
    concurrency: int,
    inputTokens: int,
    outputTokens: int,
    media: Media,
    qualitySuite: string,
    replay: string)

  /** `researchBounded` stands for the verdict of kernelresearch.ValidatePolicy and for its
      cost ceiling lying within this one. */
  datatype Policy = Policy(
    maxCandidates: int,
    maxCost: real,
    minHotspotFraction: real,
    minAmdahlCeiling: real,
    targetEndToEndSpeedup: real,
    minKernelSpeedup: real,
    maxMemoryRegression: real,
    requireSanitizer: bool,
    requireHiddenShapes: bool,
    requireServingReplay: bool,
    requireQuality: bool,
    allowGeneratedKernels: bool,
    research: bool,
    researchBounded: bool,
    authorizedUntil: int)

  datatype Artifact = Artifact(kind: string, uri: string, sha256: string, size: int)

  datatype Source = Source(implementationID: string, revision: string, license: string, artifacts: seq<Artifact>)

  datatype Model = Model(repository: string, revision: string)

  datatype Runtime = Runtime(name: string, version: string, image: string)

  datatype Request = Request(
    schemaVersion: string,
    tenantID: string,
    campaignID: string,
    candidateID: string,
    model: Model,
    runtime: Runtime,
    hardware: Hardware,
    topology: Topology,
    workload: Workload,
    policy: Policy,
    sources: seq<Source>)

  datatype Profile = Profile(
    inputDigest: string,
    tool: string,
    toolVersion: string,
    hardware: Hardware,
    runtimeImage: string,
    topology: Topology,
    workloadDigest: string,
    capturedAt: int,
    hotspots: nat,
    cost: real,
    artifactDigest: string)

  datatype Implementation = Implementation(id: string, kind: string)

  datatype Candidate = Candidate(id: string, existing: seq<Implementation>, compilers: seq<string>)

  /** `valid` stands for the verdict of kernelresearch.ValidateReceipt. */
  datatype Research = Research(valid: bool, bestSourceRevision: string)

  datatype Generation = Generation(
    inputDigest: string,
    candidateID: string,
    generator: string,
    generatorVersion: string,
    profileArtifactDigest: string,
    source: Source,
    generatedAt: int,
    cost: real,
    research: Option<Research>)

  datatype Build = Build(
    inputDigest: string,
    builder: string,
    builderVersion: string,
    environment: string,
    sourceDigest: string,
    status: string,
    checks: nat,
    artifacts: seq<Artifact>,
    receiptDigest: string,
    cost: real)

  datatype Qualification = Qualification(
    inputDigest: string,
    hardware: Hardware,
    runtimeImage: string,
    topology: Topology,
    workloadDigest: string,
    modality: string,
    media: Media,
    replay: string,
    qualitySuite: string,
    buildArtifactDigest: string,
    correctnessPassed: bool,
    hiddenShapesPassed: bool,
    sanitizerPassed: bool,
    qualityPassed: bool,
    servingReplayMeasured: bool,
    kernelSpeedup: real,
    endToEndSpeedup: real,
    memoryRegression: real,
    costRegression: real,
    profilerArtifactDigest: string,
    benchmarkEvidenceID: string,
    qualityEvidenceID: string,
    cost: real,
    measuredAt: int)

  datatype Verdict = Blocked | Inconclusive | Rejected | Qualified

  datatype Failure =
    | NoFailure
    | SourceUnavailable
    | GenerationFailed
    | GenerationInvalid
    | BuildFailed
    | BuildInvalid
    | QualificationFailed
    | GateFailed

  datatype Experiment = Experiment(
    candidate: Candidate,
    source: Option<Source>,
    generation: Option<Generation>,
    build: Option<Build>,
    qualification: Option<Qualification>,
    verdict: Verdict,
    failure: Failure)

  predicate IsDigest(value: string) {
    var v := TrimSpace(value);
    |v| == 71 && EqualFold(v[..7], "sha256:") && v[0] != '\U{17F}' && IsHex(v[7..])
  }

  predicate IsRevision(value: string) {
    var v := TrimSpace(value);
    40 <= |v| <= 64 && IsHex(v)
  }

  predicate HasPrefix(s: string, prefix: string) {
    prefix <= s
  }

  predicate ValidArtifact(a: Artifact) {
    && a.kind != ""
    && (HasPrefix(a.uri, "https://") || HasPrefix(a.uri, "s3://") || HasPrefix(a.uri, "gs://"))
    && IsDigest(a.sha256)
    && a.size > 0
  }

  predicate ValidArtifacts(artifacts: seq<Artifact>) {
    forall i :: 0 <= i < |artifacts| ==> ValidArtifact(artifacts[i])
  }

  predicate ValidTopology(t: Topology) {
    && t.nodes >= 1 && t.accelerators >= 1
    && t.tensorParallel >= 1 && t.pipelineParallel >= 1 && t.expertParallel >= 1
    && (t.mode == "aggregated" || (t.mode == "disaggregated" && t.prefillReplicas >= 1 && t.decodeReplicas >= 1))
  }

  predicate ValidWorkload(w: Workload) {
    && IsDigest(w.digest) && w.batchSize >= 1 && w.concurrency >= 1 && w.qualitySuite != "" && w.replay != ""
    && var m := w.media;
       match w.modality
       case "text" => w.inputTokens >= 1 && w.outputTokens >= 1
       case "image" => m.imagesPerRequest >= 1 && m.imageWidth >= 1 && m.imageHeight >= 1 && w.outputTokens >= 1
       case "video" =>
         m.videoFrames >= 1 && m.videoFPS >= 1 && m.imageWidth >= 1 && m.imageHeight >= 1 && w.outputTokens >= 1
       case "audio" => m.audioSeconds >= 1 && m.audioSampleRate >= 1
       case _ => false
  }

  predicate ValidPolicy(p: Policy) {
    && 1 <= p.maxCandidates <= 20 && p.maxCost > 0.0
    && 0.0 < p.minHotspotFraction < 1.0 && p.minAmdahlCeiling > 1.0
    && p.targetEndToEndSpeedup > 1.0 && p.minKernelSpeedup > 1.0
    && p.maxMemoryRegression >= 0.0 && p.authorizedUntil != 0
    && (p.research ==> p.allowGeneratedKernels && p.researchBounded)
  }

  predicate ValidSources(sources: seq<Source>) {
    && (forall i :: 0 <= i < |sources| ==>
          && sources[i].implementationID != "" && IsRevision(sources[i].revision) && sources[i].license != ""
          && ValidArtifacts(sources[i].artifacts))
    && forall i, k :: 0 <= i < k < |sources| ==> sources[i].implementationID != sources[k].implementationID
  }

  predicate ValidHeader(r: Request) {
    && r.schemaVersion == REQUEST_SCHEMA && r.tenantID != "" && r.campaignID != "" && r.candidateID != ""
    && r.model.repository != "" && IsRevision(r.model.revision)
    && r.runtime.name != "" && r.runtime.version != "" && IsDigest(r.runtime.image)
    && r.hardware.vendor != "" && r.hardware.accelerator != ""
  }

  /** validateAndDigest accepts the request, which has been normalised before. */
  predicate ValidRequest(r: Request) {
    && ValidHeader(r)
    && ValidTopology(r.topology) && ValidWorkload(r.workload) && ValidPolicy(r.policy) && ValidSources(r.sources)
  }

  predicate IdentityTrimmed(r: Request) {
    Trimmed(r.schemaVersion) && Trimmed(r.tenantID) && Trimmed(r.campaignID) && Trimmed(r.candidateID)
  }

  predicate NamesTrimmed(r: Request) {
    && Trimmed(r.hardware.vendor) && Trimmed(r.hardware.accelerator) && Trimmed(r.topology.mode)
    && Trimmed(r.workload.modality) && Trimmed(r.workload.qualitySuite) && Trimmed(r.workload.replay)
  }

  /** normalize leaves the request as it is: texts are trimmed and in ASCII of the right case,
      and no field that has a default is empty or zero. */
  predicate Normalized(r: Request) {
    && IdentityTrimmed(r) && NamesTrimmed(r)
    && IsLower(r.hardware.vendor) && IsUpper(r.hardware.accelerator)
    && IsLower(r.topology.mode) && IsLower(r.workload.modality)
    && r.topology.mode != "" && r.topology.nodes != 0 && r.topology.accelerators != 0
    && r.topology.tensorParallel != 0 && r.topology.pipelineParallel != 0 && r.topology.expertParallel != 0
    && r.policy.maxCandidates != 0 && r.policy.minHotspotFraction != 0.0 && r.policy.minAmdahlCeiling != 0.0
    && r.policy.targetEndToEndSpeedup != 0.0 && r.policy.minKernelSpeedup != 0.0
    && !r.policy.research
  }

  predicate ContainsArtifact(artifacts: seq<Artifact>, wanted: string) {
    exists i :: 0 <= i < |artifacts| && EqualFold(artifacts[i].sha256, wanted)
  }

  predicate ValidProfile(r: Request, digest: string, p: Profile) {
    && p.inputDigest == digest
    && p.tool != "" && p.toolVersion != "" && p.capturedAt != 0 && p.hotspots > 0
    && p.workloadDigest == r.workload.digest
    && p.hardware == r.hardware && p.runtimeImage == r.runtime.image && p.topology == r.topology
    && IsDigest(p.artifactDigest)
    && p.cost >= 0.0
  }

  predicate ValidGeneration(r: Request, digest: string, c: Candidate, p: Profile, g: Generation) {
    && g.inputDigest == digest && g.candidateID == c.id
    && g.generator != "" && g.generatorVersion != "" && g.generatedAt != 0
    && g.profileArtifactDigest == p.artifactDigest
    && g.cost >= 0.0
    && g.source.implementationID != "" && IsRevision(g.source.revision) && g.source.license != ""
    && g.source.artifacts != [] && ValidArtifacts(g.source.artifacts)
    && (r.policy.research ==>
          g.research.Some? && g.research.value.valid && g.source.revision == g.research.value.bestSourceRevision)
  }

  predicate ValidBuild(digest: string, b: Build) {
    && b.inputDigest == digest && b.status == "passed"
    && b.builder != "" && b.builderVersion != "" && b.environment != ""
    && IsDigest(b.sourceDigest) && IsDigest(b.receiptDigest)
    && b.checks > 0 && b.artifacts != [] && b.cost >= 0.0
    && ValidArtifacts(b.artifacts)
  }

  /** The evidence is about this build, on this hardware, topology, image and workload. */
  predicate SameIdentity(r: Request, b: Build, q: Qualification) {
    && q.inputDigest == b.inputDigest
    && q.hardware == r.hardware && q.runtimeImage == r.runtime.image && q.topology == r.topology
    && q.workloadDigest == r.workload.digest && q.modality == r.workload.modality && q.media == r.workload.media
    && q.replay == r.workload.replay && q.qualitySuite == r.workload.qualitySuite
    && ContainsArtifact(b.artifacts, q.buildArtifactDigest)
    && IsDigest(q.profilerArtifactDigest) && q.measuredAt != 0 && q.cost >= 0.0
  }

  // ----- Source selection

  /** The names a candidate may be built from, in order of preference. */
  ghost function Preferred(existing: seq<Implementation>): seq<string> {
    if existing == [] then []
    else Preferred(existing[..|existing| - 1])
         + if existing[|existing| - 1].kind == "runtime-bundled" then [] else [existing[|existing| - 1].id]
  }

  ghost function FirstPinned(names: seq<string>, pins: map<string, Source>): Option<Source> {
    if names == [] then None
    else if names[0] in pins then Some(pins[names[0]])
    else FirstPinned(names[1..], pins)
  }

  /** The source a candidate is built from: the pin of its most preferred pinned name, where
      compilers come after every implementation that is not bundled with the runtime. */
  ghost function Selected(c: Candidate, pins: map<string, Source>): Option<Source> {
    FirstPinned(Preferred(c.existing) + c.compilers, pins)
  }

  lemma {:induction false} FirstPinnedSkips(front: seq<string>, rest: seq<string>, pins: map<string, Source>)
    requires forall n :: n in front ==> n !in pins
    ensures FirstPinned(front + rest, pins) == FirstPinned(rest, pins)
  {
    if front == [] {
      assert front + rest == rest;
    } else {
      assert (front + rest)[1..] == front[1..] + rest;
      FirstPinnedSkips(front[1..], rest, pins);
    }
  }

  lemma {:induction false} PreferredSplit(existing: seq<Implementation>, i: nat)
    requires i <= |existing|
    ensures Preferred(existing[..i]) <= Preferred(existing)
  {
    if i < |existing| {
      PreferredSplit(existing[..|existing| - 1], i);
      assert existing[..|existing| - 1][..i] == existing[..i];
    } else {
      assert existing[..i] == existing;
    }
  }

  /** A selected source is always one of the pins, under one of the candidate's names. */
  lemma {:induction false} SelectedIsPinned(names: seq<string>, pins: map<string, Source>)
    ensures FirstPinned(names, pins) == None <==> forall n :: n in names ==> n !in pins
    ensures FirstPinned(names, pins).Some? ==>
              exists i :: 0 <= i < |names| && names[i] in pins && FirstPinned(names, pins).value == pins[names[i]]
                          && forall j :: 0 <= j < i ==> names[j] !in pins
  {
    if names != [] && names[0] !in pins {
      SelectedIsPinned(names[1..], pins);
      assert names == [names[0]] + names[1..];
      if FirstPinned(names[1..], pins).Some? {
        var i :| 0 <= i < |names[1..]| && names[1..][i] in pins
                 && FirstPinned(names[1..], pins).value == pins[names[1..][i]]
                 && forall j :: 0 <= j < i ==> names[1..][j] !in pins;
        assert names[i + 1] == names[1..][i];
        assert forall j :: 0 < j < i + 1 ==> names[j] == names[1..][j - 1];
      }
    }
  }

  method FirstCompiler(names: seq<string>, pins: map<string, Source>) returns (source: Option<Source>)
    ensures source == FirstPinned(names, pins)
  {
    var i := 0;
    while i < |names|
      invariant 0 <= i <= |names|
      invariant forall n :: n in names[..i] ==> n !in pins
    {
      if names[i] in pins {
        assert names == names[..i] + names[i..];
        FirstPinnedSkips(names[..i], names[i..], pins);
        return Some(pins[names[i]]);
      }
      i := i + 1;
    }
    assert names + [] == names;
    FirstPinnedSkips(names, [], pins);
    return None;
  }

  method SelectSource(c: Candidate, pins: map<string, Source>) returns (source: Option<Source>)
    ensures source == Selected(c, pins)
  {
    var i := 0;
    while i < |c.existing|
      invariant 0 <= i <= |c.existing|
      invariant forall n :: n in Preferred(c.existing[..i]) ==> n !in pins
    {
      var implementation := c.existing[i];
      assert c.existing[..i + 1][..i] == c.existing[..i];
      if implementation.kind != "runtime-bundled" && implementation.id in pins {
        PreferredSplit(c.existing, i + 1);
        var front, names := Preferred(c.existing[..i]), Preferred(c.existing) + c.compilers;
        assert Preferred(c.existing[..i + 1]) == front + [implementation.id];
        assert names == front + names[|front|..];
        FirstPinnedSkips(front, names[|front|..], pins);
        return Some(pins[implementation.id]);
      }
      i := i + 1;
    }
    assert c.existing[..i] == c.existing;
    FirstPinnedSkips(Preferred(c.existing), c.compilers, pins);
    source := FirstCompiler(c.compilers, pins);
  }

  // ----- Which source is chosen

  /** One of the first `n` implementations has this name and is not bundled with the runtime. */
  ghost predicate NamesExisting(existing: seq<Implementation>, n: nat, id: string) {
    exists k :: 0 <= k < |existing| && k < n && existing[k].id == id && existing[k].kind != "runtime-bundled"
  }

  /** The candidate may be built from an implementation of this name: an existing one that is
      not bundled with the runtime, or a compiler. */
  ghost predicate Names(c: Candidate, id: string) {
    NamesExisting(c.existing, |c.existing|, id) || id in c.compilers
  }

  lemma {:induction false} PreferredNames(existing: seq<Implementation>, id: string)
    ensures id in Preferred(existing) <==> NamesExisting(existing, |existing|, id)
  {
    if existing != [] {
      var last := |existing| - 1;
      PreferredNames(existing[..last], id);
      if NamesExisting(existing[..last], last, id) {
        var k :| 0 <= k < last && existing[..last][k].id == id && existing[..last][k].kind != "runtime-bundled";
        assert existing[k] == existing[..last][k];
      }
      if NamesExisting(existing, |existing|, id) {
        var k :| 0 <= k < |existing| && existing[k].id == id && existing[k].kind != "runtime-bundled";
        assert k < last ==> existing[..last][k] == existing[k];
      }
    }
  }

  /** The front of the list comes first. */
  lemma {:induction false} FirstOfTwo(front: seq<string>, rest: seq<string>, pins: map<string, Source>)
    requires forall n :: n in pins ==> pins[n].implementationID == n
    requires exists n :: n in front && n in pins
    ensures FirstPinned(front + rest, pins).Some? && FirstPinned(front + rest, pins).value.implementationID in front
  {
    assert (front + rest)[0] == front[0] && (front + rest)[1..] == front[1..] + rest;
    if front[0] !in pins {
      assert front == [front[0]] + front[1..];
      FirstOfTwo(front[1..], rest, pins);
    }
  }

  /** A pinned source is chosen exactly if the candidate names one, and then by preference: the
      first existing implementation that is pinned and not bundled, and a compiler, the first
      pinned one, only if there is none. */
  lemma SelectedExact(c: Candidate, pins: map<string, Source>)
    requires forall n :: n in pins ==> pins[n].implementationID == n
    ensures Selected(c, pins) == None <==> forall n :: n in pins ==> !Names(c, n)
    ensures Selected(c, pins).Some? ==>
              var id := Selected(c, pins).value.implementationID;
              && id in pins && Selected(c, pins).value == pins[id] && Names(c, id)
    ensures (exists n :: n in pins && NamesExisting(c.existing, |c.existing|, n)) ==>
              && Selected(c, pins).Some?
              && NamesExisting(c.existing, |c.existing|, Selected(c, pins).value.implementationID)
  {
    forall n ensures n in Preferred(c.existing) <==> NamesExisting(c.existing, |c.existing|, n) {
      PreferredNames(c.existing, n);
    }
    SelectedIsPinned(Preferred(c.existing) + c.compilers, pins);
    if exists n :: n in pins && NamesExisting(c.existing, |c.existing|, n) {
      FirstOfTwo(Preferred(c.existing), c.compilers, pins);
    }
  }

  /** Among existing implementations the first pinned one is chosen. */
  lemma FirstExistingChosen(c: Candidate, pins: map<string, Source>, k: nat)
    requires k < |c.existing| && c.existing[k].kind != "runtime-bundled" && c.existing[k].id in pins
    requires forall n :: n in pins ==> !NamesExisting(c.existing, k, n)
    ensures Selected(c, pins) == Some(pins[c.existing[k].id])
  {
    var existing := c.existing;
    PreferredSplit(existing, k + 1);
    var front, names := Preferred(existing[..k]), Preferred(existing) + c.compilers;
    assert existing[..k + 1][..k] == existing[..k];
    assert Preferred(existing[..k + 1]) == front + [existing[k].id];
    assert names == front + names[|front|..];
    forall n | n in front ensures n !in pins {
      PreferredNames(existing[..k], n);
      var j :| 0 <= j < k && existing[..k][j].id == n && existing[..k][j].kind != "runtime-bundled";
      assert existing[j] == existing[..k][j];
      assert NamesExisting(existing, k, n);
    }
    FirstPinnedSkips(front, names[|front|..], pins);
  }

  /** Without a pinned existing implementation, the first pinned compiler is chosen. */
  lemma FirstCompilerChosen(c: Candidate, pins: map<string, Source>, k: nat)
    requires k < |c.compilers| && c.compilers[k] in pins && forall j :: 0 <= j < k ==> c.compilers[j] !in pins
    requires forall n :: n in pins ==> !NamesExisting(c.existing, |c.existing|, n)
    ensures Selected(c, pins) == Some(pins[c.compilers[k]])
  {
    forall n | n in Preferred(c.existing) ensures n !in pins {
      PreferredNames(c.existing, n);
    }
    FirstPinnedSkips(Preferred(c.existing), c.compilers, pins);
    assert c.compilers == c.compilers[..k] + c.compilers[k..];
    FirstPinnedSkips(c.compilers[..k], c.compilers[k..], pins);
  }
}
