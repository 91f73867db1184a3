/** The reconciler: one tick brings the state of the Kubernetes Jobs into the run rows. */
module Reconciler {
  import opened Options
  import opened Records

  const CODE_STUCK := "PDE-OPERATOR-JOB-STUCK-TIMEOUT"
  const CODE_FAILED := "PDE-OPERATOR-JOB-FAILED"
  const CODE_MISSING := "PDE-OPERATOR-JOB-MISSING"
  const CODE_CANCELLED := "PDE-OPERATOR-RUN-CANCELLED"

  datatype Phase = JobActive | JobSucceeded | JobFailed | JobMissing

  /** What the cluster says of a Job; None when the question itself fails. */
  datatype Observation = Observation(phase: Option<Phase>, diagnostic: Option<Option<string>>)

  function OrNow(t: Option<Time>, now: Time): Option<Time> {
    if t.Some? then t else Some(now)
  }

  predicate IsStuck(run: Run, cfg: Settings, now: Time) {
    var reference := run.statusUpdatedAt.GetOr(run.startedAt.GetOr(run.createdAt));
    now - reference >= cfg.stuckTimeout
  }

  function StuckMessage(diagnostic: Option<string>): string {
    var base := "Run exceeded progress timeout; Kubernetes Job deleted.";
    if diagnostic.GetOr("") != "" then base + " " + diagnostic.value else base
  }

  /** The columns a look at a Job can set. */
  function Ended(run: Run, status: Status, at: Option<Time>, code: Option<string>, message: Option<string>): Run {
    run.(status := status, finishedAt := at, finishCode := code, finishMessage := message)
  }

  /** A run whose Job is no longer there or has failed. */
  function Lost(run: Run, now: Time, code: string, message: string): Run {
    var cancelled := run.cancelRequestedAt.Some?;
    var status := if cancelled then Cancelled else Failed;
    if run.finishCode.Some? then Ended(run, status, OrNow(run.finishedAt, now), run.finishCode, run.finishMessage)
    else
      Ended(run, status, OrNow(run.finishedAt, now), Some(if cancelled then CODE_CANCELLED else code), Some(message))
  }

  /** The run after a look at its Job; None when a question to the cluster failed. */
  function ReconcileRun(run: Run, obs: Observation, cfg: Settings, now: Time): Option<Run> {
    match obs.phase
    case None => None
    case Some(JobSucceeded) =>
      var status := if IsTerminal(run.status) then run.status else Success;
      Some(Ended(run, status, OrNow(run.finishedAt, now), run.finishCode, run.finishMessage))
    case Some(JobFailed) =>
      if run.finishCode.None? && obs.diagnostic.None? then None
      else
        var diagnostic := obs.diagnostic.GetOr(None).GetOr("");
        Some(Lost(run, now, CODE_FAILED, if diagnostic != "" then diagnostic else "Kubernetes Job failed."))
    case Some(JobMissing) => Some(Lost(run, now, CODE_MISSING, "Kubernetes Job no longer exists."))
    case Some(JobActive) =>
      if run.cancelRequestedAt.Some? then
        if now - run.cancelRequestedAt.value >= cfg.cancelGrace then
          Some(Ended(run, Cancelled, Some(now), Some(CODE_CANCELLED),
                     Some("Run cancelled; Kubernetes Job removed after grace period.")))
        else Some(run)
      else if IsStuck(run, cfg, now) then
        if obs.diagnostic.None? then None
        else Some(Ended(run, Failed, Some(now), Some(CODE_STUCK), Some(StuckMessage(obs.diagnostic.value))))
      else Some(run)
  }

  /** Whether a look at its Job sets any column of a run. */
  predicate Touches(run: Run, obs: Observation, cfg: Settings, now: Time) {
    match obs.phase
    case None => false
    case Some(JobActive) =>
      if run.cancelRequestedAt.Some? then now - run.cancelRequestedAt.value >= cfg.cancelGrace
      else IsStuck(run, cfg, now)
    case Some(_) => true
  }

  /** The runs a tick sets columns of. */
  function Touched(runs: map<Id, Run>, seen: Id -> Observation, cfg: Settings, now: Time): set<Id> {
    set id | id in runs && IsActive(runs[id]) && Touches(runs[id], seen(id), cfg, now)
  }

  /** Whether a tick gets all its answers; one failing question undoes the tick. */
  predicate TickSucceeds(runs: map<Id, Run>, seen: Id -> Observation, cfg: Settings, now: Time) {
    forall id | id in runs && IsActive(runs[id]) :: ReconcileRun(runs[id], seen(id), cfg, now).Some?
  }

  function ReconcileAll(runs: map<Id, Run>, seen: Id -> Observation, cfg: Settings, now: Time): map<Id, Run>
    requires TickSucceeds(runs, seen, cfg, now)
  {
    map id | id in runs ::
      if IsActive(runs[id]) then ReconcileRun(runs[id], seen(id), cfg, now).value else runs[id]
  }

  function Reconcile(s: Store, seen: Id -> Observation, cfg: Settings, now: Time): Store {
    if TickSucceeds(s.runs, seen, cfg, now) then s.(runs := ReconcileAll(s.runs, seen, cfg, now)) else s
  }
}
