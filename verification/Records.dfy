/** The operator's tables: runs, schedules, profiles, and the stored inputs both kinds of rows keep. */
module Records {
  import opened Options
  import Lines
  import Secrets
  import Text

  type Id = nat
  type Time = int
  type Env = map<string, string>

  datatype Status = Queued | NotStarted | InProgress | Success | Failed | Cancelled

  predicate IsTerminal(s: Status) {
    s == Success || s == Failed || s == Cancelled
  }

  predicate IsRetryable(s: Status) {
    s == Failed || s == Cancelled
  }

  /** The pipeline columns of a row, or the same values in a stored input. */
  datatype Pipeline = Pipeline(
    data: string, vars: Option<string>, secure: Option<string>, isDryRun: bool, logLevel: string)

  /** The input kept in artifact storage under the id of a run or a schedule, with the real secrets. */
  datatype Payload = Payload(pipeline: Pipeline, retryVars: Option<string>)

  function Masked(p: Pipeline): Pipeline {
    p.(secure := Secrets.Mask(p.secure))
  }

  datatype Run = Run(
    profileId: string, pdeImage: string, status: Status,
    pipeline: Pipeline, retryVars: Option<string>, envVars: Option<Env>,
    name: Option<string>, jobName: Option<string>, triggeredBy: Option<Id>,
    statusUpdatedAt: Option<Time>, reportUpdatedAt: Option<Time>, logUpdatedAt: Option<Time>,
    stateLocation: Option<string>, retryOf: Option<Id>, templateId: Option<Id>,
    createdAt: Time, startedAt: Option<Time>, finishedAt: Option<Time>, cancelRequestedAt: Option<Time>,
    finishCode: Option<string>, finishMessage: Option<string>)

  /** A cron expression with its timezone. */
  datatype Cron = Cron(expression: string, timezone: string)

  datatype Overlap = Skip | Allow

  datatype FireStatus = FireSuccess | FireFailed | SkippedOverlap | SkippedMissed

  /** What the text of a failed or missed firing reports. */
  datatype FireError = InvalidCron | MissedAt(planned: Time) | NotFired(error: Error)

  datatype Schedule = Schedule(
    cron: Cron, enabled: bool, overlap: Overlap, profileId: string, pdeImage: Option<string>,
    pipeline: Pipeline, envVars: Option<Env>, templateId: Option<Id>, nextFireAt: Option<Time>,
    lastFireAt: Option<Time>, lastFireStatus: Option<FireStatus>, lastFireError: Option<FireError>,
    lastRunId: Option<Id>, updatedAt: Time)

  datatype Store = Store(
    runs: map<Id, Run>, schedules: map<Id, Schedule>, inputs: map<Id, Payload>, profiles: map<string, string>)

  datatype Settings = Settings(
    queueEnabled: bool, jobCreationEnabled: bool, maxConcurrentRuns: int,
    stuckTimeout: int, cancelGrace: int, missedGrace: int, minInterval: int, batchSize: nat)

  datatype Error =
    | ProfileNotFound | RunNotFound | NotCancellable | NotRetriable | StateNotAvailable | InputNotAvailable
    | StorageFailed | JobCreationFailed | CleanupFailed | ClusterFailed | CommitFailed | ScheduleNotFound
    | ScheduleInvalid

  /** What a service call leaves in the tables, and what it returns or raises. */
  datatype Effect<T> = Done(store: Store, value: T) | Raised(store: Store, error: Error)

  /**
   * How storage, the cluster and the database answer while a call is made: a stored input that cannot be decrypted is
   * not readable, and a commit that fails leaves the rows as they were.
   */
  datatype World = World(storageOk: bool, jobOk: bool, readable: bool, committed: bool)

  datatype RunRequest = RunRequest(
    profileId: string, pipeline: Pipeline, envVars: Option<Env>, pdeImage: Option<string>, templateId: Option<Id>)

  function JobName(id: Id): string {
    "pde-run-" + Text.Decimal(id)
  }

  /** A text given and not blank, stripped; otherwise the fallback. */
  function GivenOr(text: Option<string>, fallback: string): string {
    var stripped := Lines.Strip(text.GetOr(""), Lines.IsSpace);
    if stripped == "" then fallback else stripped
  }

  /** A run that holds a Kubernetes Job. */
  predicate IsActive(r: Run) {
    r.jobName.Some? && !IsTerminal(r.status)
  }

  predicate IsWaiting(r: Run) {
    r.status == Queued && r.jobName.None?
  }
}
