/** The run service: what each call leaves in the tables and what it returns. */
module Runs {
  import opened Options
  import opened Records
  import Lines
  import Text

  const OPERATOR_PREFIX := "PDE-OPERATOR-"

  predicate IsOperatorCode(code: Option<string>) {
    code.Some? && Text.StartsWith(code.value, OPERATOR_PREFIX)
  }

  // ---------- creating and retrying

  /** Starts the Job at once when there is no queue; None when the cluster refuses. */
  function StartJobNow(cfg: Settings, run: Run, id: Id, now: Time, jobOk: bool): Option<Run> {
    if cfg.queueEnabled || !cfg.jobCreationEnabled then Some(run)
    else if !jobOk then None
    else Some(run.(jobName := Some(JobName(id)), status := NotStarted, statusUpdatedAt := Some(now)))
  }

  function NewRun(
    profileId: string, image: string, pipeline: Pipeline, retryVars: Option<string>, envVars: Option<Env>,
    triggeredBy: Option<Id>, retryOf: Option<Id>, templateId: Option<Id>, now: Time): Run
  {
    Run(profileId, image, Queued, pipeline, retryVars, envVars,
        None, None, triggeredBy, None, None, None, None, retryOf, templateId, now, None, None, None, None, None)
  }

  /** Stores the input, then adds the row; a refused Job or a failed commit loses the row but not the stored input. */
  function AddRun(s: Store, cfg: Settings, id: Id, payload: Payload, run: Run, now: Time, world: World): Effect<Id> {
    if !world.storageOk then Raised(s, StorageFailed)
    else
      var stored := s.(inputs := s.inputs[id := payload]);
      match StartJobNow(cfg, run, id, now, world.jobOk)
      case None => Raised(stored, JobCreationFailed)
      case Some(started) =>
        if !world.committed then Raised(stored, CommitFailed)
        else Done(stored.(runs := stored.runs[id := started]), id)
  }

  function CreateRun(
    s: Store, cfg: Settings, req: RunRequest, id: Id, triggeredBy: Option<Id>, now: Time, world: World): Effect<Id>
  {
    if req.profileId !in s.profiles then Raised(s, ProfileNotFound)
    else
      AddRun(s, cfg, id, Payload(req.pipeline, None),
             NewRun(req.profileId, GivenOr(req.pdeImage, s.profiles[req.profileId]), Masked(req.pipeline), None,
                    req.envVars, triggeredBy, None, req.templateId, now),
             now, world)
  }

  datatype RetryRequest = RetryRequest(envVars: Option<Env>, retryVars: Option<string>, pdeImage: Option<string>)

  function Given<T>(override: Option<T>, fallback: Option<T>): Option<T> {
    if override.Some? then override else fallback
  }

  function Retry(
    s: Store, cfg: Settings, parentId: Id, req: RetryRequest, id: Id, now: Time, stateOk: bool, world: World)
    : Effect<Id>
  {
    if parentId !in s.runs then Raised(s, RunNotFound)
    else
      var parent := s.runs[parentId];
      if !IsRetryable(parent.status) then Raised(s, NotRetriable)
      else if parent.stateLocation.GetOr("") == "" || !stateOk then Raised(s, StateNotAvailable)
      else if parent.profileId !in s.profiles then Raised(s, ProfileNotFound)
      else if parentId !in s.inputs || !world.readable then Raised(s, InputNotAvailable)
      else
        var retryVars := Given(req.retryVars, parent.retryVars);
        var fallback := if parent.pdeImage != "" then parent.pdeImage else s.profiles[parent.profileId];
        var image := GivenOr(req.pdeImage, fallback);
        AddRun(s, cfg, id, s.inputs[parentId].(retryVars := retryVars),
               NewRun(parent.profileId, image, parent.pipeline, retryVars, Given(req.envVars, parent.envVars),
                      None, Some(parentId), parent.templateId, now),
               now, world)
  }

  // ---------- cancelling and deleting

  function Cancel(s: Store, id: Id, now: Time): Effect<Id> {
    if id !in s.runs then Raised(s, RunNotFound)
    else
      var run := s.runs[id];
      if IsTerminal(run.status) || run.cancelRequestedAt.Some? then Raised(s, NotCancellable)
      else if run.jobName.None? then
        var cancelled := run.(cancelRequestedAt := Some(now), status := Cancelled, finishedAt := Some(now));
        Done(s.(runs := s.runs[id := cancelled]), id)
      else
        Done(s.(runs := s.runs[id := run.(cancelRequestedAt := Some(now))]), id)
  }

  /** Deletes what is stored, then the row; when the commit fails the row is left without its input. */
  function Delete(s: Store, id: Id, cleanupOk: bool, committed: bool): Effect<Id> {
    if id !in s.runs then Raised(s, RunNotFound)
    else if !cleanupOk then Raised(s, CleanupFailed)
    else
      var cleaned := s.(inputs := s.inputs - {id});
      if !committed then Raised(cleaned, CommitFailed) else Done(cleaned.(runs := s.runs - {id}), id)
  }

  // ---------- deliveries from a running Job

  /** A status document as the Job sends it; a time that cannot be read counts as absent. */
  datatype StatusReport = StatusReport(
    name: Option<string>, status: Option<string>, startedAt: Option<Time>, finishedAt: Option<Time>)

  function ParseStatus(text: Option<string>): Option<Status> {
    match text
    case None => None
    case Some(t) =>
      var name := Lines.Strip(t, Lines.IsSpace);
      if name == "QUEUED" then Some(Queued)
      else if name == "NOT_STARTED" then Some(NotStarted)
      else if name == "IN_PROGRESS" then Some(InProgress)
      else if name == "SUCCESS" then Some(Success)
      else if name == "FAILED" then Some(Failed)
      else if name == "CANCELLED" then Some(Cancelled)
      else None
  }

  /** The row after a status document: any known status is taken over, also from a terminal one. */
  function ApplyStatus(run: Run, report: StatusReport, now: Time): Run {
    var reported := Lines.Strip(report.name.GetOr(""), Lines.IsSpace);
    var name := if run.name.None? && reported != "" then Some(reported) else run.name;
    var status := ParseStatus(report.status).GetOr(run.status);
    var startedAt := if run.startedAt.None? then report.startedAt else run.startedAt;
    var finishedAt := if IsTerminal(status) then Some(report.finishedAt.GetOr(now)) else run.finishedAt;
    run.(statusUpdatedAt := Some(now), name := name, status := status, startedAt := startedAt, finishedAt := finishedAt)
  }

  function DeliverStatus(s: Store, id: Id, report: StatusReport, now: Time): Effect<Id> {
    if id !in s.runs then Raised(s, RunNotFound)
    else Done(s.(runs := s.runs[id := ApplyStatus(s.runs[id], report, now)]), id)
  }

  /** The finish code of a report, unless the operator has set one of its own. */
  function ApplyReportCode(run: Run, code: Option<string>): Run {
    if IsOperatorCode(run.finishCode) || code.None? then run else run.(finishCode := code)
  }

  function DeliverReport(s: Store, id: Id, code: Option<string>, now: Time, storageOk: bool): Effect<Id> {
    if id !in s.runs then Raised(s, RunNotFound)
    else if !storageOk then Raised(s, StorageFailed)
    else Done(s.(runs := s.runs[id := ApplyReportCode(s.runs[id].(reportUpdatedAt := Some(now)), code)]), id)
  }

  /** The artifacts a Job uploads at its end: each may be missing; a report carries its finish code. */
  datatype Upload = Upload(state: Option<string>, report: Option<Option<string>>, log: bool, debug: bool)

  predicate UploadsSome(up: Upload) {
    up.state.Some? || up.report.Some? || up.log || up.debug
  }

  function ApplyUpload(run: Run, up: Upload, now: Time): Run {
    var r := if up.state.Some? then run.(stateLocation := up.state) else run;
    var r := if up.report.Some? then ApplyReportCode(r.(reportUpdatedAt := Some(now)), up.report.value) else r;
    if up.log then r.(logUpdatedAt := Some(now)) else r
  }

  function UploadArtifacts(s: Store, id: Id, up: Upload, now: Time, storageOk: bool): Effect<Id> {
    if id !in s.runs then Raised(s, RunNotFound)
    else if UploadsSome(up) && !storageOk then Raised(s, StorageFailed)
    else Done(s.(runs := s.runs[id := ApplyUpload(s.runs[id], up, now)]), id)
  }
}
