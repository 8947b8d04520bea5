/** What the engine demands of a request and of each piece of evidence, field by field, and
    that its checks demand exactly this. */
module LabGates {
  import opened Wrappers
  import opened Text
  import opened LabEvidence

  // ----- Digests, revisions and artifacts

  ghost predicate HexFrom(s: string, from: nat) {
    forall i :: from <= i < |s| ==> '0' <= s[i] <= '9' || 'a' <= s[i] <= 'f' || 'A' <= s[i] <= 'F'
  }

  /** "sha256:" in any case and 64 hexadecimal digits, with spaces around them. */
  ghost predicate IsSha256(s: string) {
    var v := TrimSpace(s);
    && |v| == 71 && HexFrom(v, 7)
    && (v[0] == 's' || v[0] == 'S') && (v[1] == 'h' || v[1] == 'H') && (v[2] == 'a' || v[2] == 'A')
    && v[3] == '2' && v[4] == '5' && v[5] == '6' && v[6] == ':'
  }

  lemma PrefixIff(v: string)
    requires |v| == 7
    ensures EqualFold(v, "sha256:") && v[0] != '\U{17F}' <==>
            && (v[0] == 's' || v[0] == 'S') && (v[1] == 'h' || v[1] == 'H') && (v[2] == 'a' || v[2] == 'A')
            && v[3] == '2' && v[4] == '5' && v[5] == '6' && v[6] == ':'
  {
    var p := "sha256:";
    assert p[0] == 's' && p[1] == 'h' && p[2] == 'a' && p[3] == '2' && p[4] == '5' && p[5] == '6' && p[6] == ':';
  }

  lemma DigestIff(s: string)
    ensures IsDigest(s) <==> IsSha256(s)
  {
    var v := TrimSpace(s);
    if |v| == 71 {
      PrefixIff(v[..7]);
      assert forall i :: 7 <= i < 71 ==> v[i] == v[7..][i - 7];
      assert forall i :: 0 <= i < 64 ==> v[7..][i] == v[i + 7];
    }
  }

  /** An even number of at least forty and at most 64 hexadecimal digits. */
  ghost predicate IsCommit(s: string) {
    var v := TrimSpace(s);
    |v| >= 40 && |v| <= 64 && |v| % 2 == 0 && HexFrom(v, 0)
  }

  lemma RevisionIff(s: string)
    ensures IsRevision(s) <==> IsCommit(s)
  {
  }

  /** Named, at an HTTPS, S3 or GCS address, immutable and not empty. */
  ghost predicate Retrievable(a: Artifact) {
    && |a.kind| > 0 && IsSha256(a.sha256) && a.size >= 1
    && ("https://" <= a.uri || "s3://" <= a.uri || "gs://" <= a.uri)
  }

  lemma ArtifactIff(a: Artifact)
    ensures ValidArtifact(a) <==> Retrievable(a)
  {
    DigestIff(a.sha256);
  }

  ghost predicate AllRetrievable(artifacts: seq<Artifact>) {
    forall i :: 0 <= i < |artifacts| ==> Retrievable(artifacts[i])
  }

  lemma ArtifactsIff(artifacts: seq<Artifact>)
    ensures ValidArtifacts(artifacts) <==> AllRetrievable(artifacts)
  {
    forall i | 0 <= i < |artifacts| ensures ValidArtifact(artifacts[i]) <==> Retrievable(artifacts[i]) {
      ArtifactIff(artifacts[i]);
    }
  }

  // ----- Evidence

  /** The profile is measured, immutable and of this request, workload, hardware, image and topology. */
  ghost predicate TrustedProfile(r: Request, digest: string, p: Profile) {
    && p.inputDigest == digest && p.hardware == r.hardware && p.topology == r.topology
    && p.runtimeImage == r.runtime.image && p.workloadDigest == r.workload.digest
    && |p.tool| > 0 && |p.toolVersion| > 0 && p.capturedAt != 0 && p.hotspots >= 1
    && IsSha256(p.artifactDigest) && !(p.cost < 0.0)
  }

  lemma ProfileIff(r: Request, digest: string, p: Profile)
    ensures ValidProfile(r, digest, p) <==> TrustedProfile(r, digest, p)
  {
    DigestIff(p.artifactDigest);
  }

  /** The source was generated for this request, candidate and profile, by a named generator,
      has an immutable identity, a license and artifacts, and under a research policy is the
      winner that a valid receipt retains. */
  ghost predicate TrustedGeneration(r: Request, digest: string, c: Candidate, p: Profile, g: Generation) {
    && g.inputDigest == digest && g.candidateID == c.id && g.profileArtifactDigest == p.artifactDigest
    && |g.generator| > 0 && |g.generatorVersion| > 0 && g.generatedAt != 0 && !(g.cost < 0.0)
    && |g.source.implementationID| > 0 && |g.source.license| > 0 && IsCommit(g.source.revision)
    && |g.source.artifacts| > 0 && AllRetrievable(g.source.artifacts)
    && (r.policy.research ==>
          g.research != None && g.research.value.valid && g.research.value.bestSourceRevision == g.source.revision)
  }

  lemma GenerationIff(r: Request, digest: string, c: Candidate, p: Profile, g: Generation)
    ensures ValidGeneration(r, digest, c, p, g) <==> TrustedGeneration(r, digest, c, p, g)
  {
    RevisionIff(g.source.revision);
    ArtifactsIff(g.source.artifacts);
  }

  /** The build passed, for this request, by a named builder in a named environment, with
      immutable source and receipt, some checks and some artifacts. */
  ghost predicate TrustedBuild(digest: string, b: Build) {
    && b.inputDigest == digest && b.status == "passed"
    && |b.builder| > 0 && |b.builderVersion| > 0 && |b.environment| > 0
    && IsSha256(b.sourceDigest) && IsSha256(b.receiptDigest)
    && b.checks >= 1 && |b.artifacts| >= 1 && AllRetrievable(b.artifacts) && !(b.cost < 0.0)
  }

  lemma BuildIff(digest: string, b: Build)
    ensures ValidBuild(digest, b) <==> TrustedBuild(digest, b)
  {
    DigestIff(b.sourceDigest);
    DigestIff(b.receiptDigest);
    ArtifactsIff(b.artifacts);
  }

  // ----- The gates

  datatype Reason =
    | IdentityMismatch
    | CorrectnessFailed
    | ShapesFailed
    | SanitizerFailed
    | KernelTooSlow
    | ReplayMissing
    | TargetMissed
    | MemoryRegressed
    | QualityMissing
    | BenchmarkMissing

  /** The evidence is of an artifact of this build and of everything the request fixes, with its
      own immutable trace, a time and a cost that is not negative. */
  ghost predicate Matching(r: Request, b: Build, q: Qualification) {
    && q.inputDigest == b.inputDigest && q.hardware == r.hardware && q.topology == r.topology
    && q.runtimeImage == r.runtime.image && q.workloadDigest == r.workload.digest
    && q.modality == r.workload.modality && q.media == r.workload.media
    && q.replay == r.workload.replay && q.qualitySuite == r.workload.qualitySuite
    && (exists i :: 0 <= i < |b.artifacts| && EqualFold(b.artifacts[i].sha256, q.buildArtifactDigest))
    && IsSha256(q.profilerArtifactDigest) && q.measuredAt != 0 && !(q.cost < 0.0)
  }

  /** What is wrong with evidence that matches. */
  ghost predicate Lacks(r: Request, q: Qualification, reason: Reason) {
    match reason
    case IdentityMismatch => false
    case CorrectnessFailed => !q.correctnessPassed
    case ShapesFailed => r.policy.requireHiddenShapes && !q.hiddenShapesPassed
    case SanitizerFailed => r.policy.requireSanitizer && !q.sanitizerPassed
    case KernelTooSlow => q.kernelSpeedup < r.policy.minKernelSpeedup
    case ReplayMissing => r.policy.requireServingReplay && !q.servingReplayMeasured
    case TargetMissed => q.endToEndSpeedup < r.policy.targetEndToEndSpeedup
    case MemoryRegressed => r.policy.maxMemoryRegression < q.memoryRegression
    case QualityMissing => r.policy.requireQuality && !(q.qualityPassed && |q.qualityEvidenceID| > 0)
    case BenchmarkMissing => |q.benchmarkEvidenceID| == 0
  }

  /** What is wrong with evidence; other shortcomings are only looked for if it matches. */
  ghost predicate FallsShort(r: Request, b: Build, q: Qualification, reason: Reason) {
    if Matching(r, b, q) then Lacks(r, q, reason) else reason == IdentityMismatch
  }

  ghost predicate Passes(r: Request, b: Build, q: Qualification) {
    Matching(r, b, q) && forall g :: !Lacks(r, q, g)
  }

  lemma PassesIff(r: Request, b: Build, q: Qualification)
    ensures Passes(r, b, q) <==> forall g :: !FallsShort(r, b, q, g)
  {
    if !Matching(r, b, q) {
      assert FallsShort(r, b, q, IdentityMismatch);
    } else {
      assert forall g :: FallsShort(r, b, q, g) <==> Lacks(r, q, g);
    }
  }

  lemma IdentityIff(r: Request, b: Build, q: Qualification)
    ensures SameIdentity(r, b, q) <==> Matching(r, b, q)
  {
    DigestIff(q.profilerArtifactDigest);
  }

  ghost predicate OfKernel(reason: Reason) {
    reason.CorrectnessFailed? || reason.ShapesFailed? || reason.SanitizerFailed? || reason.KernelTooSlow?
  }

  method KernelReasons(r: Request, q: Qualification) returns (reasons: seq<Reason>)
    ensures forall g :: g in reasons <==> OfKernel(g) && Lacks(r, q, g)
  {
    reasons := [];
    if !q.correctnessPassed {
      reasons := reasons + [CorrectnessFailed];
    }
    if r.policy.requireHiddenShapes && !q.hiddenShapesPassed {
      reasons := reasons + [ShapesFailed];
    }
    if r.policy.requireSanitizer && !q.sanitizerPassed {
      reasons := reasons + [SanitizerFailed];
    }
    if q.kernelSpeedup < r.policy.minKernelSpeedup {
      reasons := reasons + [KernelTooSlow];
    }
  }

  method ServingReasons(r: Request, q: Qualification) returns (reasons: seq<Reason>)
    ensures forall g :: g in reasons <==> !OfKernel(g) && Lacks(r, q, g)
  {
    reasons := [];
    if r.policy.requireServingReplay && !q.servingReplayMeasured {
      reasons := reasons + [ReplayMissing];
    }
    if q.endToEndSpeedup < r.policy.targetEndToEndSpeedup {
      reasons := reasons + [TargetMissed];
    }
    if q.memoryRegression > r.policy.maxMemoryRegression {
      reasons := reasons + [MemoryRegressed];
    }
    if r.policy.requireQuality && (!q.qualityPassed || q.qualityEvidenceID == "") {
      reasons := reasons + [QualityMissing];
    }
    if q.benchmarkEvidenceID == "" {
      reasons := reasons + [BenchmarkMissing];
    }
  }

  /** qualificationReasons: exactly what falls short. */
  method QualificationReasons(r: Request, b: Build, q: Qualification) returns (reasons: seq<Reason>)
    ensures forall g :: g in reasons <==> FallsShort(r, b, q, g)
  {
    IdentityIff(r, b, q);
    if !SameIdentity(r, b, q) {
      return [IdentityMismatch];
    }
    var kernel := KernelReasons(r, q);
    var serving := ServingReasons(r, q);
    reasons := kernel + serving;
  }

  // ----- The request

  /** The errors of validateAndDigest. */
  datatype Fault =
    | NoIdentity
    | MutableModelOrRuntime
    | NoHardware
    | TopologyCounts
    | TopologyMode
    | NoSplitReplicas
    | LoadShape
    | MediaShape
    | UnboundedPolicy
    | ResearchWithoutGeneration
    | ResearchPolicy
    | SourceIncomplete
    | SourceTwice
    | SourceNotRetrievable

  ghost predicate HasFault(r: Request, fault: Fault) {
    var t, w, m, p := r.topology, r.workload, r.workload.media, r.policy;
    match fault
    case NoIdentity =>
      || r.schemaVersion != "infercrane.accelerator-lab-request/v1"
      || |r.tenantID| == 0 || |r.campaignID| == 0 || |r.candidateID| == 0
    case MutableModelOrRuntime =>
      || |r.model.repository| == 0 || !IsCommit(r.model.revision)
      || |r.runtime.name| == 0 || |r.runtime.version| == 0 || !IsSha256(r.runtime.image)
    case NoHardware => |r.hardware.vendor| == 0 || |r.hardware.accelerator| == 0
    case TopologyCounts =>
      t.nodes < 1 || t.accelerators < 1 || t.tensorParallel < 1 || t.pipelineParallel < 1 || t.expertParallel < 1
    case TopologyMode => t.mode != "aggregated" && t.mode != "disaggregated"
    case NoSplitReplicas => t.mode == "disaggregated" && (t.prefillReplicas < 1 || t.decodeReplicas < 1)
    case LoadShape =>
      !IsSha256(w.digest) || w.batchSize < 1 || w.concurrency < 1 || |w.qualitySuite| == 0 || |w.replay| == 0
    case MediaShape =>
      !(|| (w.modality == "text" && w.inputTokens > 0 && w.outputTokens > 0)
        || (w.modality == "image" && m.imagesPerRequest > 0 && m.imageWidth > 0 && m.imageHeight > 0
            && w.outputTokens > 0)
        || (w.modality == "video" && m.videoFrames > 0 && m.videoFPS > 0 && m.imageWidth > 0 && m.imageHeight > 0
            && w.outputTokens > 0)
        || (w.modality == "audio" && m.audioSeconds > 0 && m.audioSampleRate > 0))
    case UnboundedPolicy =>
      || p.maxCandidates < 1 || p.maxCandidates > 20 || p.maxCost <= 0.0
      || p.minHotspotFraction <= 0.0 || p.minHotspotFraction >= 1.0 || p.minAmdahlCeiling <= 1.0
      || p.targetEndToEndSpeedup <= 1.0 || p.minKernelSpeedup <= 1.0
      || p.maxMemoryRegression < 0.0 || p.authorizedUntil == 0
    case ResearchWithoutGeneration => p.research && !p.allowGeneratedKernels
    case ResearchPolicy => p.research && !p.researchBounded
    case SourceIncomplete =>
      exists i :: 0 <= i < |r.sources|
                  && (|r.sources[i].implementationID| == 0 || |r.sources[i].license| == 0
                      || !IsCommit(r.sources[i].revision))
    case SourceTwice =>
      exists i, k :: 0 <= i < k < |r.sources| && r.sources[i].implementationID == r.sources[k].implementationID
    case SourceNotRetrievable => exists i :: 0 <= i < |r.sources| && !AllRetrievable(r.sources[i].artifacts)
  }

  ghost predicate Admissible(r: Request) {
    forall fault :: !HasFault(r, fault)
  }

  lemma TopologyIff(r: Request)
    ensures ValidTopology(r.topology) <==>
            !HasFault(r, TopologyCounts) && !HasFault(r, TopologyMode) && !HasFault(r, NoSplitReplicas)
  {
  }

  lemma WorkloadIff(r: Request)
    ensures ValidWorkload(r.workload) <==> !HasFault(r, LoadShape) && !HasFault(r, MediaShape)
  {
    DigestIff(r.workload.digest);
  }

  lemma PolicyIff(r: Request)
    ensures ValidPolicy(r.policy) <==>
            !HasFault(r, UnboundedPolicy) && !HasFault(r, ResearchWithoutGeneration) && !HasFault(r, ResearchPolicy)
  {
  }

  lemma SourcesIff(r: Request)
    ensures ValidSources(r.sources) <==>
            !HasFault(r, SourceIncomplete) && !HasFault(r, SourceTwice) && !HasFault(r, SourceNotRetrievable)
  {
    forall i | 0 <= i < |r.sources|
      ensures IsRevision(r.sources[i].revision) <==> IsCommit(r.sources[i].revision)
      ensures ValidArtifacts(r.sources[i].artifacts) <==> AllRetrievable(r.sources[i].artifacts)
    {
      RevisionIff(r.sources[i].revision);
      ArtifactsIff(r.sources[i].artifacts);
    }
  }

  lemma HeaderIff(r: Request)
    ensures ValidHeader(r) <==>
            !HasFault(r, NoIdentity) && !HasFault(r, MutableModelOrRuntime) && !HasFault(r, NoHardware)
  {
    RevisionIff(r.model.revision);
    DigestIff(r.runtime.image);
  }

  /** The request is accepted exactly when it has none of the faults. */
  lemma RequestIff(r: Request)
    ensures ValidRequest(r) <==> Admissible(r)
  {
    HeaderIff(r);
    TopologyIff(r);
    WorkloadIff(r);
    PolicyIff(r);
    SourcesIff(r);
  }

  /** The loop over the pinned sources, with the names seen so far. */
  method CheckSources(sources: seq<Source>) returns (ok: bool)
    ensures ok <==> ValidSources(sources)
  {
    var seen: set<string> := {};
    var i := 0;
    while i < |sources|
      invariant 0 <= i <= |sources| && ValidSources(sources[..i])
      invariant forall id :: id in seen <==> exists k :: 0 <= k < i && sources[k].implementationID == id
    {
      var s := sources[i];
      if s.implementationID == "" || !IsRevision(s.revision) || s.license == "" {
        return false;
      }
      if s.implementationID in seen {
        return false;
      }
      seen := seen + {s.implementationID};
      if !ValidArtifacts(s.artifacts) {
        return false;
      }
      assert sources[..i + 1] == sources[..i] + [s];
      i := i + 1;
    }
    assert sources[..i] == sources;
    ok := true;
  }

  /** validateAndDigest. */
  method ValidateRequest(r: Request) returns (ok: bool)
    ensures ok <==> Admissible(r)
    ensures ok ==> r.policy.maxCost > 0.0
  {
    RequestIff(r);
    var pinned := CheckSources(r.sources);
    ok := ValidHeader(r) && ValidTopology(r.topology) && ValidWorkload(r.workload) && ValidPolicy(r.policy) && pinned;
  }
}
