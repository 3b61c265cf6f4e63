/** The model loader: the cached detector and landmark model handles and the
    hand pipeline that is rebuilt around them on every call that does not
    throw. */
module HandposeLoader {
  import opened Wrappers

  /** A loaded inference model, known by the resource locator it came from. */
  datatype ModelHandle = ModelHandle(modelUrl: string)

  /** The two flags of the hand configuration that decide which models are
      requested: `enabled` for the detector, `landmarks` for the landmark
      (skeleton) model. */
  datatype HandConfig = HandConfig(enabled: bool, landmarks: bool)

  /** The cached detector handle and landmark handle, in that order. */
  type Handles = (Option<ModelHandle>, Option<ModelHandle>)

  /** What one model load would come to: it resolves to a handle (or null),
      or it rejects. */
  datatype LoadOutcome = Resolved(handle: Option<ModelHandle>) | Rejected

  /** Why loading failed: a requested model load rejected, so the awaited
      join of the two loads threw. */
  datatype LoadError = LoadRejected

  /** The outcomes the detector load and the landmark-model load would come
      to if requested now. */
  type LoadOutcomes = (LoadOutcome, LoadOutcome)

  /** Loading starts over when either cached handle is missing. */
  predicate NeedsReload(cache: Handles) {
    cache.0.None? || cache.1.None?
  }

  /** A requested load rejects; a load whose flag is off is not issued and
      cannot reject. */
  predicate RequestRejects(flag: bool, outcome: LoadOutcome) {
    flag && outcome.Rejected?
  }

  /** The call throws: it takes the reload branch and one of the loads it
      issues rejects. */
  predicate LoadFails(config: HandConfig, cache: Handles, outcomes: LoadOutcomes) {
    NeedsReload(cache) &&
    (RequestRejects(config.enabled, outcomes.0) || RequestRejects(config.landmarks, outcomes.1))
  }

  /** The handle a load request yields: a model is requested only when its
      flag is set, and then it is whatever the load resolved to. */
  function Requested(flag: bool, outcome: LoadOutcome): Option<ModelHandle> {
    if flag && outcome.Resolved? then outcome.handle else None
  }

  /** The cache after one call: a reload replaces both handles, even one that
      was present; a call that throws leaves the cache as it was; otherwise
      both are kept. */
  function NextCache(config: HandConfig, cache: Handles, outcomes: LoadOutcomes): Handles {
    if !NeedsReload(cache) || LoadFails(config, cache, outcomes) then cache
    else (Requested(config.enabled, outcomes.0), Requested(config.landmarks, outcomes.1))
  }

  /** The cache after one call per element of `runs`, in order. */
  function AfterLoads(config: HandConfig, cache: Handles, runs: seq<LoadOutcomes>): Handles
    decreases |runs|
  {
    if runs == [] then cache
    else AfterLoads(config, NextCache(config, cache, runs[0]), runs[1..])
  }

  /** How many of the calls in `runs` take the reload branch (find a handle
      missing). */
  function ReloadCount(config: HandConfig, cache: Handles, runs: seq<LoadOutcomes>): nat
    decreases |runs|
  {
    if runs == [] then 0
    else
      (if NeedsReload(cache) then 1 else 0) +
      ReloadCount(config, NextCache(config, cache, runs[0]), runs[1..])
  }

  /** A reload that does not throw never yields a handle whose flag is off,
      and a present handle is what its load resolved to. */
  lemma {:induction false} ReloadRespectsFlags(config: HandConfig, cache: Handles, outcomes: LoadOutcomes)
    requires NeedsReload(cache) && !LoadFails(config, cache, outcomes)
    ensures var r := NextCache(config, cache, outcomes);
      (r.0.Some? ==> config.enabled && outcomes.0 == Resolved(r.0)) &&
      (r.1.Some? ==> config.landmarks && outcomes.1 == Resolved(r.1))
  {
  }

  /** Once both handles are cached, no later call takes the reload branch
      and the cache stays as it is, whatever the loads would come to. */
  lemma {:induction false} CachedHandlesKept(config: HandConfig, cache: Handles, runs: seq<LoadOutcomes>)
    requires !NeedsReload(cache)
    ensures AfterLoads(config, cache, runs) == cache
    ensures ReloadCount(config, cache, runs) == 0
    decreases |runs|
  {
    if runs != [] {
      CachedHandlesKept(config, cache, runs[1..]);
    }
  }

  /** The calls of a run that take the reload branch are exactly those before
      the cache first holds both handles: if the cache before call `k` is the
      first one holding both (or `k` is the length of the run and none does),
      the run takes the reload branch `k` times. */
  lemma {:induction false} ReloadCountUntilSettled(config: HandConfig, cache: Handles, runs: seq<LoadOutcomes>, k: nat)
    requires k <= |runs|
    requires forall j :: 0 <= j < k ==> NeedsReload(AfterLoads(config, cache, runs[..j]))
    requires k < |runs| ==> !NeedsReload(AfterLoads(config, cache, runs[..k]))
    ensures ReloadCount(config, cache, runs) == k
    decreases |runs|
  {
    assert runs[..0] == [];
    if k == 0 {
      if runs != [] {
        CachedHandlesKept(config, cache, runs);
      }
    } else {
      var next := NextCache(config, cache, runs[0]);
      var rest := runs[1..];
      forall j | 0 <= j < k - 1
        ensures NeedsReload(AfterLoads(config, next, rest[..j]))
      {
        assert runs[..j + 1][1..] == rest[..j];
        assert NeedsReload(AfterLoads(config, cache, runs[..j + 1]));
      }
      if k < |runs| {
        assert runs[..k][1..] == rest[..k - 1];
      }
      ReloadCountUntilSettled(config, next, rest, k - 1);
    }
  }

  /** With both models requested and both loads of the first call resolving
      to handles, a run takes the reload branch exactly once and keeps the
      first handles. */
  lemma {:induction false} LoadsOnce(config: HandConfig, cache: Handles, runs: seq<LoadOutcomes>)
    requires config.enabled && config.landmarks && NeedsReload(cache)
    requires |runs| > 0 && runs[0].0.Resolved? && runs[0].0.handle.Some?
    requires runs[0].1.Resolved? && runs[0].1.handle.Some?
    ensures AfterLoads(config, cache, runs) == (runs[0].0.handle, runs[0].1.handle)
    ensures ReloadCount(config, cache, runs) == 1
  {
    CachedHandlesKept(config, (runs[0].0.handle, runs[0].1.handle), runs[1..]);
  }

  /** With the landmark model switched off and starting from a cache that is
      missing a handle, no call can fill both handles, so every call takes
      the reload branch again, and a missing landmark handle stays missing. */
  lemma {:induction false} LandmarksOffReloadsEveryTime(config: HandConfig, cache: Handles, runs: seq<LoadOutcomes>)
    requires !config.landmarks && NeedsReload(cache)
    ensures cache.1.None? ==> AfterLoads(config, cache, runs).1.None?
    ensures ReloadCount(config, cache, runs) == |runs|
    decreases |runs|
  {
    if runs != [] {
      LandmarksOffReloadsEveryTime(config, NextCache(config, cache, runs[0]), runs[1..]);
    }
  }

  /** With the detector switched off, a missing detector handle stays
      missing, so every call takes the reload branch. */
  lemma {:induction false} DetectorOffStaysMissing(config: HandConfig, cache: Handles, runs: seq<LoadOutcomes>)
    requires !config.enabled && cache.0.None?
    ensures AfterLoads(config, cache, runs).0.None?
    ensures ReloadCount(config, cache, runs) == |runs|
    decreases |runs|
  {
    if runs != [] {
      DetectorOffStaysMissing(config, NextCache(config, cache, runs[0]), runs[1..]);
    }
  }

  /** A call that throws leaves the cache as it was, so a handle that was
      present survives a failed reload. */
  lemma {:induction false} FailedLoadKeepsCache(config: HandConfig, cache: Handles, runs: seq<LoadOutcomes>)
    requires forall j :: 0 <= j < |runs| ==> LoadFails(config, cache, runs[j])
    ensures AfterLoads(config, cache, runs) == cache
    decreases |runs|
  {
    if runs != [] {
      assert LoadFails(config, cache, runs[0]);
      FailedLoadKeepsCache(config, cache, runs[1..]);
    }
  }

  /** The detector stage of the pipeline, holding the detector handle. */
  class HandDetector {
    const model: Option<ModelHandle>

    constructor (model: Option<ModelHandle>)
      ensures this.model == model
    {
      this.model := model;
    }
  }

  /** The two-stage pipeline, holding the detector stage and the landmark
      model handle. */
  class HandPipeline {
    const detector: HandDetector
    const poseModel: Option<ModelHandle>

    constructor (detector: HandDetector, poseModel: Option<ModelHandle>)
      ensures this.detector == detector && this.poseModel == poseModel
    {
      this.detector := detector;
      this.poseModel := poseModel;
    }
  }

  /** The loader's process-wide state: the two cached handles and the current
      pipeline. */
  class HandModels {
    var detectorModel: Option<ModelHandle>
    var poseModel: Option<ModelHandle>
    var pipeline: HandPipeline?

    /** Nothing loaded yet, no pipeline built. */
    constructor ()
      ensures detectorModel.None? && poseModel.None? && pipeline == null
    {
      detectorModel, poseModel, pipeline := None, None, null;
    }

    function Cache(): Handles
      reads this
    {
      (detectorModel, poseModel)
    }

    /** Ensures the models are loaded and rebuilds the pipeline around them.
        `detectorLoad` and `poseLoad` are what the loads of the detector and
        the landmark model would come to if they are issued now. A rejected
        load makes the call throw before anything is assigned. */
    method Load(config: HandConfig, detectorLoad: LoadOutcome, poseLoad: LoadOutcome)
      returns (r: Result<Handles, LoadError>)
      modifies this
      ensures r.Failure? <==> LoadFails(config, old(Cache()), (detectorLoad, poseLoad))
      ensures r.Failure? ==> unchanged(this)
      ensures r.Success? ==> Cache() == NextCache(config, old(Cache()), (detectorLoad, poseLoad))
      ensures r.Success? ==> pipeline != null && fresh(pipeline) && fresh(pipeline.detector)
      ensures r.Success? ==> pipeline.detector.model == detectorModel && pipeline.poseModel == poseModel
      ensures r.Success? ==> r.value == Cache()
    {
      if detectorModel.None? || poseModel.None? {
        if RequestRejects(config.enabled, detectorLoad) || RequestRejects(config.landmarks, poseLoad) {
          return Failure(LoadRejected);
        }
        detectorModel, poseModel := Requested(config.enabled, detectorLoad), Requested(config.landmarks, poseLoad);
      }
      var handDetector := new HandDetector(detectorModel);
      pipeline := new HandPipeline(handDetector, poseModel);
      r := Success((detectorModel, poseModel));
    }
  }

  /** Two loads with the same configuration on fresh state: when both models
      are requested and the first call's loads resolve to handles, the second
      call returns the same handles whatever its loads would come to, and
      still builds a new pipeline. */
  method LoadTwice(config: HandConfig, first: Handles, second: LoadOutcomes)
    returns (firstResult: Result<Handles, LoadError>, secondResult: Result<Handles, LoadError>, rebuilt: bool)
    requires config.enabled && config.landmarks && first.0.Some? && first.1.Some?
    ensures firstResult == Success(first) && secondResult == Success(first)
    ensures rebuilt
  {
    var models := new HandModels();
    firstResult := models.Load(config, Resolved(first.0), Resolved(first.1));
    var firstPipeline := models.pipeline;
    secondResult := models.Load(config, second.0, second.1);
    rebuilt := models.pipeline != firstPipeline;
  }
}
