/** BackgroundRemoverService of app/services/remover.py: a small state machine
    over the loaded session, the "model loaded" flag and the thread-pool
    executor, with eager loading in `initialize`, a read-only health report,
    and single and batch inference guarded by the loaded flag.
    The model backend is a parameter: loading is an outcome supplied by the
    caller and inference a function that may fail. */
module Remover {
  import opened Wrappers
  import opened Errors
  import opened Utils
  import opened FanIn
  import Config
  import Text

  /** The rembg session handle for a model. */
  datatype Session = Session(model: string)

  /** `_executor`: absent (None), active, or shut down. */
  datatype Executor = NoExecutor | Active | ShutDown

  /** `remove(image, session=...)`: the model's output image, or what it raises. */
  type Inference = (Session, Image) -> Result<Image, Error>

  /** The service's three fields as one value. */
  datatype Snapshot = Snapshot(session: Option<Session>, modelLoaded: bool, executor: Executor)

  /** The dict health_check returns. */
  datatype HealthReport = HealthReport(status: string, model: string, modelLoaded: bool,
                                       maxConcurrent: nat, queueSize: nat, executorActive: bool)

  const NotInitialized: Error := RuntimeError("Background remover service not initialized")

  /** The exception `os.environ[...]` raises, since remover.py never imports `os`. */
  const OsNotImported: Error := NameError("name 'os' is not defined")

  function BatchTooLarge(n: nat): Error {
    ValueError("Batch size (" + Text.Digits(n) + ") exceeds maximum allowed ("
               + Text.Digits(Config.MaxFilesBatch) + ")")
  }

  /** `f"{request_id}-{i+1}"`. */
  function SubRequestId(requestId: string, position: nat): string {
    requestId + "-" + Text.Digits(position)
  }

  /** Sub-requests of one batch never share an id. */
  lemma SubRequestIdsDistinct(requestId: string, i: nat, j: nat)
    requires i != j
    ensures SubRequestId(requestId, i) != SubRequestId(requestId, j)
  {
    if SubRequestId(requestId, i) == SubRequestId(requestId, j) {
      var n := |requestId| + 1;
      assert SubRequestId(requestId, i)[n..] == Text.Digits(i);
      assert SubRequestId(requestId, j)[n..] == Text.Digits(j);
      Text.DigitsInjective(i, j);
    }
  }

  // ---------------------------------------------------------------- the state machine on values

  const Initial: Snapshot := Snapshot(None, false, NoExecutor)

  /** The consistency that every operation keeps: a loaded service holds a
      session and an active executor, and an executor is never kept once shut down. */
  predicate Consistent(s: Snapshot) {
    && (s.modelLoaded ==> s.session.Some? && s.executor == Active)
    && s.executor != ShutDown
  }

  /** is_ready: loaded, with an executor that exists and is not shut down. */
  predicate Ready(s: Snapshot) {
    s.modelLoaded && s.executor != NoExecutor && s.executor != ShutDown
  }

  /** In a consistent state, ready and loaded are the same thing. */
  lemma ReadyIffLoaded(s: Snapshot)
    requires Consistent(s)
    ensures Ready(s) <==> s.modelLoaded
  {
  }

  /** health_check: "healthy" iff loaded; the executor is reported active iff
      it exists and is not shut down; the processing queue is never used, so its
      size is 0. */
  function Health(s: Snapshot): (h: HealthReport)
    ensures h.status == "healthy" <==> s.modelLoaded
    ensures h.status == "unhealthy" <==> !s.modelLoaded
    ensures h.status != "degraded"
    ensures h.executorActive <==> s.executor == Active
    ensures h.modelLoaded == s.modelLoaded
  {
    HealthReport(if s.modelLoaded then "healthy" else "unhealthy", Config.RembgModel, s.modelLoaded,
                 Config.MaxConcurrentRequests, 0, s.executor != NoExecutor && s.executor != ShutDown)
  }

  /** initialize, from state `s`: the cache-directory step runs only when a
      cache directory is configured and may raise (`env`); a fresh executor is
      created; then `load` is the outcome of `new_session`. The flag is set only
      after both succeed; on failure the exception is re-raised and the flag is
      left as it was. */
  function AfterInitialize(s: Snapshot, cacheDir: string, env: Outcome<Error>, load: Result<Session, Error>)
    : (r: (Snapshot, Outcome<Error>))
    ensures r.1.Pass? <==> (cacheDir == "" || env.Pass?) && load.Ok?
    ensures r.1.Pass? ==> r.0 == Snapshot(Some(load.value), true, Active)
    ensures r.1.Fail? ==> r.0.session == s.session && r.0.modelLoaded == s.modelLoaded
  {
    if cacheDir != "" && env.Fail? then (s, env)
    else if load.Err? then (s.(executor := Active), Fail(load.error))
    else (Snapshot(Some(load.value), true, Active), Pass)
  }

  /** Initialisation succeeds exactly when the cache step and the load both
      succeed, and only then does the flag change; after a success the service
      is ready and holds the loaded session. */
  lemma InitializeOutcome(s: Snapshot, cacheDir: string, env: Outcome<Error>, load: Result<Session, Error>)
    ensures var (t, o) := AfterInitialize(s, cacheDir, env, load);
      && (o.Pass? <==> (cacheDir == "" || env.Pass?) && load.Ok?)
      && (o.Pass? ==> Ready(t) && t.session == Some(load.value))
      && (o.Fail? ==> t.modelLoaded == s.modelLoaded && t.session == s.session)
      && (o.Fail? && cacheDir != "" && env.Fail? ==> t == s && o == env)
      && (o.Fail? && (cacheDir == "" || env.Pass?) ==> o == Fail(load.error) && t.executor == Active)
  {
  }

  lemma InitializeKeepsConsistent(s: Snapshot, cacheDir: string, env: Outcome<Error>, load: Result<Session, Error>)
    requires Consistent(s)
    ensures Consistent(AfterInitialize(s, cacheDir, env, load).0)
  {
  }

  /** cleanup, from state `s`: the flag is cleared first; an existing executor
      is shut down (`shutdownOk` says whether that call returns) and dropped;
      then the session is dropped. A raising shutdown is caught, so the steps
      after it are skipped and nothing propagates. */
  function AfterCleanup(s: Snapshot, shutdownOk: bool): (t: Snapshot)
    ensures !t.modelLoaded && !Ready(t)
  {
    if s.executor != NoExecutor && !shutdownOk then s.(modelLoaded := false)
    else Snapshot(None, false, NoExecutor)
  }

  /** Cleanup with a shutdown that returns releases everything: the service
      is back in its initial state. */
  lemma CleanupReleasesAll(s: Snapshot)
    ensures AfterCleanup(s, true) == Initial
  {
  }

  /** Cleaning up twice leaves the state of cleaning up once, when the
      shutdown call behaves the same both times. */
  lemma CleanupIdempotent(s: Snapshot, shutdownOk: bool)
    ensures AfterCleanup(AfterCleanup(s, shutdownOk), shutdownOk) == AfterCleanup(s, shutdownOk)
  {
  }

  lemma CleanupKeepsConsistent(s: Snapshot, shutdownOk: bool)
    requires Consistent(s)
    ensures Consistent(AfterCleanup(s, shutdownOk))
  {
  }

  /** As written, the cache step always raises NameError (`os` is not imported)
      and a cache directory is always configured, so initialize never loads:
      it raises NameError, creates no executor and leaves the service unready. */
  lemma InitializeAsWrittenNeverLoads(s: Snapshot, cacheDir: string, load: Result<Session, Error>)
    requires cacheDir != ""
    ensures AfterInitialize(s, cacheDir, Fail(OsNotImported), load) == (s, Fail(OsNotImported))
    ensures !Ready(AfterInitialize(Initial, cacheDir, Fail(OsNotImported), load).0)
  {
  }

  /** With the cache step succeeding (`os` imported), initialize from the
      initial state makes the service ready exactly when the model loads. */
  lemma InitializeWithOsImportedLoads(cacheDir: string, load: Result<Session, Error>)
    ensures Ready(AfterInitialize(Initial, cacheDir, Pass, load).0) <==> load.Ok?
    ensures load.Ok? ==> AfterInitialize(Initial, cacheDir, Pass, load) == (Snapshot(Some(load.value), true, Active), Pass)
  {
  }

  /** As written, shutdown raises TypeError, so cleanup of an initialised
      service clears the flag but keeps the executor running and the session
      held, and health still reports the executor as active. */
  lemma CleanupAsWrittenKeepsExecutor(session: Session)
    ensures AfterCleanup(Snapshot(Some(session), true, Active), false) == Snapshot(Some(session), false, Active)
    ensures Health(AfterCleanup(Snapshot(Some(session), true, Active), false)).executorActive
  {
  }

  /** With a shutdown that returns, cleanup of an initialised service stops the
      executor and drops the session. */
  lemma CleanupWithWorkingShutdown(session: Session)
    ensures AfterCleanup(Snapshot(Some(session), true, Active), true) == Initial
    ensures !Health(AfterCleanup(Snapshot(Some(session), true, Active), true)).executorActive
  {
  }

  /** The outcome of each image of a batch, in input order. */
  function Inferences(session: Session, images: seq<Image>, infer: Inference): (outs: seq<Result<Image, Error>>)
    ensures |outs| == |images|
    ensures forall i :: 0 <= i < |images| ==> outs[i] == infer(session, images[i])
  {
    seq(|images|, i requires 0 <= i < |images| => infer(session, images[i]))
  }

  /** A batch whose items all succeed returns one result per image, result i
      being the model's output for image i; otherwise it raises the error of
      the lowest-indexed failing image. */
  lemma BatchOutcome(session: Session, images: seq<Image>, infer: Inference)
    ensures var r := Gather(Inferences(session, images, infer));
      && (r.Ok? <==> forall i :: 0 <= i < |images| ==> infer(session, images[i]).Ok?)
      && (r.Ok? ==> |r.value| == |images|
                    && forall i :: 0 <= i < |images| ==> r.value[i] == infer(session, images[i]).value)
      && (r.Err? ==> exists k: nat :: k < |images| && infer(session, images[k]) == Err(r.error)
                                    && forall j :: 0 <= j < k ==> infer(session, images[j]).Ok?)
  {
    var outs := Inferences(session, images, infer);
    if Gather(outs).Err? {
      GatherFailure(outs);
      var k: nat :| FirstFailureAt(outs, k) && Gather(outs).error == outs[k].error;
      assert infer(session, images[k]) == Err(Gather(outs).error);
    }
  }

  // ---------------------------------------------------------------- the service object

  class BackgroundRemoverService {
    var session: Option<Session>
    var modelLoaded: bool
    var executor: Executor

    function State(): Snapshot
      reads this
    {
      Snapshot(session, modelLoaded, executor)
    }

    ghost predicate Valid()
      reads this
    {
      Consistent(State())
    }

    /** `__init__`: no session, not loaded, no executor. */
    constructor ()
      ensures Valid() && State() == Initial
    {
      session := None;
      modelLoaded := false;
      executor := NoExecutor;
    }

    /** `is_ready`. */
    predicate IsReady()
      reads this
    {
      Ready(State())
    }

    /** `health_check`: a report computed from the fields alone. */
    function HealthCheck(): HealthReport
      reads this
    {
      Health(State())
    }

    /** `_load_model`: on success the new session is stored; on failure the
        exception is re-raised and the session is left as it was. */
    method LoadModel(load: Result<Session, Error>) returns (outcome: Outcome<Error>)
      modifies this
      ensures outcome == (if load.Ok? then Pass else Fail(load.error))
      ensures session == (if load.Ok? then Some(load.value) else old(session))
      ensures modelLoaded == old(modelLoaded) && executor == old(executor)
    {
      if load.Err? {
        return Fail(load.error);
      }
      session := Some(load.value);
      return Pass;
    }

    /** `initialize`: see AfterInitialize. */
    method Initialize(cacheDir: string, env: Outcome<Error>, load: Result<Session, Error>) returns (outcome: Outcome<Error>)
      requires Valid()
      modifies this
      ensures Valid()
      ensures (State(), outcome) == AfterInitialize(old(State()), cacheDir, env, load)
    {
      if cacheDir != "" {
        if env.Fail? {
          return env;
        }
      }
      executor := Active;
      outcome := LoadModel(load);
      if outcome.Fail? {
        return;
      }
      modelLoaded := true;
    }

    /** `cleanup`: see AfterCleanup. It never raises. */
    method Cleanup(shutdownOk: bool)
      requires Valid()
      modifies this
      ensures Valid()
      ensures State() == AfterCleanup(old(State()), shutdownOk)
    {
      modelLoaded := false;
      if executor != NoExecutor {
        if !shutdownOk {
          return;   // the exception is caught and logged
        }
        executor := NoExecutor;   // shut down, then dropped
      }
      session := None;
    }

    /** `remove_background`: refuses before any processing unless the model is
        loaded; otherwise runs inference on the loaded session and passes its
        outcome on unchanged. */
    method RemoveBackground(image: Image, infer: Inference) returns (r: Result<Image, Error>)
      requires Valid()
      ensures !modelLoaded ==> r == Err(NotInitialized)
      ensures modelLoaded ==> r == infer(session.value, image)
    {
      if !modelLoaded {
        return Err(NotInitialized);
      }
      r := infer(session.value, image);
    }

    /** `remove_background_batch`: the loaded check comes first, then the size
        limit; both refuse before any sub-request. Otherwise one sub-request is
        issued per image, with id "<request id>-<i+1>", every outcome is
        collected, and the batch is their fan-in. `subRequests` lists the ids of
        the sub-requests issued. */
    method RemoveBackgroundBatch(images: seq<Image>, requestId: Option<string>, freshId: string, infer: Inference)
      returns (r: Result<seq<Image>, Error>, subRequests: seq<string>)
      requires Valid()
      ensures !modelLoaded ==> r == Err(NotInitialized) && subRequests == []
      ensures modelLoaded && |images| > Config.MaxFilesBatch ==> r == Err(BatchTooLarge(|images|)) && subRequests == []
      ensures modelLoaded && |images| <= Config.MaxFilesBatch ==>
        && |subRequests| == |images|
        && (forall i :: 0 <= i < |images| ==> subRequests[i] == SubRequestId(requestId.GetOr(freshId), i + 1))
        && r == Gather(Inferences(session.value, images, infer))
    {
      subRequests := [];
      if !modelLoaded {
        return Err(NotInitialized), subRequests;
      }
      var id := requestId.GetOr(freshId);
      if |images| > Config.MaxFilesBatch {
        return Err(BatchTooLarge(|images|)), subRequests;
      }
      ghost var outs := Inferences(session.value, images, infer);
      var results: seq<Result<Image, Error>> := [];
      for i := 0 to |images|
        invariant |results| == |subRequests| == i
        invariant forall j :: 0 <= j < i ==> results[j] == outs[j] && subRequests[j] == SubRequestId(id, j + 1)
      {
        var outcome := RemoveBackground(images[i], infer);
        results := results + [outcome];
        subRequests := subRequests + [SubRequestId(id, i + 1)];
      }
      assert results == outs;
      var processed: seq<Image> := [];
      for i := 0 to |results|
        invariant |processed| == i
        invariant forall j :: 0 <= j < i ==> results[j] == Ok(processed[j])
      {
        if results[i].Err? {
          GatherFirstFailure(results, i);
          return Err(results[i].error), subRequests;
        }
        processed := processed + [results[i].value];
      }
      GatherAllOk(results, processed);
      r := Ok(processed);
    }
  }
}
