/** Why a call is refused: each service asks its questions in one order, and raises the error of the first one. */
module Refusals {
  import opened Options
  import opened Outcomes
  import opened Records
  import opened ScheduleOutcomes
  import Lines
  import MergeLaws
  import Runs
  import Schedules
  import Secrets

  /** What is raised when something does not hold, and when it does the first error of what is asked after it. */
  function Unless(holds: bool, error: Error, later: Option<Error>): Option<Error> {
    if holds then later else Some(error)
  }

  /** A call raises that error, or returns where there is none. */
  predicate Answered<T>(r: Effect<T>, error: Option<Error>) {
    match error
    case None => r.Done?
    case Some(e) => r.Raised? && r.error == e
  }

  /** What has to go well once the input of a new run is known. */
  function Starting(cfg: Settings, world: World, later: Option<Error>): Option<Error> {
    Unless(world.storageOk, StorageFailed,
    Unless(CanStart(cfg, world), JobCreationFailed,
    Unless(world.committed, CommitFailed, later)))
  }

  lemma {:induction false} CreateRefused(
    s: Store, cfg: Settings, req: RunRequest, id: Id, trigger: Option<Id>, now: Time, world: World)
    ensures Answered(
              Runs.CreateRun(s, cfg, req, id, trigger, now, world),
              Unless(req.profileId in s.profiles, ProfileNotFound,
              Starting(cfg, world, None)))
  {
    hide GivenOr, Masked, JobName;
  }

  lemma {:induction false} RetryRefused(
    s: Store, cfg: Settings, parent: Id, req: Runs.RetryRequest, id: Id, now: Time, stateOk: bool, world: World)
    ensures var known := parent in s.runs;
            Answered(
              Runs.Retry(s, cfg, parent, req, id, now, stateOk, world),
              Unless(known, RunNotFound,
              Unless(known ==> s.runs[parent].status in {Failed, Cancelled}, NotRetriable,
              Unless(known ==> s.runs[parent].stateLocation !in {None, Some("")} && stateOk, StateNotAvailable,
              Unless(known ==> s.runs[parent].profileId in s.profiles, ProfileNotFound,
              Unless(parent in s.inputs && world.readable, InputNotAvailable,
              Starting(cfg, world, None)))))))
  {
    hide GivenOr, JobName;
  }

  lemma {:induction false} CancelRefused(s: Store, id: Id, now: Time)
    ensures var known := id in s.runs;
            Answered(
              Runs.Cancel(s, id, now),
              Unless(known, RunNotFound,
              Unless(known ==> s.runs[id].status in {Queued, NotStarted, InProgress}, NotCancellable,
              Unless(known ==> s.runs[id].cancelRequestedAt.None?, NotCancellable, None))))
  {
  }

  lemma {:induction false} DeleteRefused(s: Store, id: Id, ok: bool, committed: bool)
    ensures Answered(
              Runs.Delete(s, id, ok, committed),
              Unless(id in s.runs, RunNotFound, Unless(ok, CleanupFailed, Unless(committed, CommitFailed, None))))
    ensures Answered(
              Schedules.Delete(s, id, ok, committed),
              Unless(id in s.schedules, ScheduleNotFound,
              Unless(ok, CleanupFailed, Unless(committed, CommitFailed, None))))
  {
  }

  lemma {:induction false} DeliveryRefused(
    s: Store, id: Id, report: Runs.StatusReport, code: Option<string>, up: Runs.Upload, now: Time, ok: bool)
    ensures Answered(Runs.DeliverStatus(s, id, report, now), Unless(id in s.runs, RunNotFound, None))
    ensures Answered(
              Runs.DeliverReport(s, id, code, now, ok),
              Unless(id in s.runs, RunNotFound, Unless(ok, StorageFailed, None)))
    ensures Answered(
              Runs.UploadArtifacts(s, id, up, now, ok),
              Unless(id in s.runs, RunNotFound,
              Unless(up.state.Some? || up.report.Some? || up.log || up.debug ==> ok, StorageFailed, None)))
  {
    hide Runs.ApplyStatus, Runs.ApplyUpload, Runs.ApplyReportCode;
  }

  lemma {:induction false} CreateScheduleRefused(
    s: Store, cfg: Settings, cal: Schedules.Calendar, req: Schedules.ScheduleRequest, id: Id, now: Time, world: World)
    ensures Answered(
              Schedules.Create(s, cfg, cal, req, id, now, world),
              Unless(Schedules.Accepted(cal, cfg, req.cron, now), ScheduleInvalid,
              Unless(!Lines.Blank(req.run.pipeline.data), ScheduleInvalid,
              Unless(req.run.profileId in s.profiles, ProfileNotFound,
              Unless(KeepsNone(req.run.pipeline.secure), ScheduleInvalid,
              Unless(world.storageOk, StorageFailed,
              Unless(req.enabled ==> cal.next(req.cron, now).Some?, ScheduleInvalid,
              Unless(world.committed, CommitFailed, None))))))))
  {
    hide Schedules.Accepted, Secrets.Merge, KeepsNone, Lines.Blank, Schedules.NewSchedule;
    MergesWithNothing(req.run.pipeline.secure);
  }

  lemma {:induction false} UpdateRefused(
    s: Store, cfg: Settings, cal: Schedules.Calendar, id: Id, req: Schedules.ScheduleRequest, now: Time, world: World)
    ensures Answered(
              Schedules.Update(s, cfg, cal, id, req, now, world),
              Unless(id in s.schedules, ScheduleNotFound,
              Unless(Schedules.Accepted(cal, cfg, req.cron, now), ScheduleInvalid,
              Unless(req.run.profileId in s.profiles, ProfileNotFound,
              Unless(id in s.inputs && world.readable, InputNotAvailable,
              Unless(id in s.inputs ==> KeepsOnlyStored(req.run.pipeline.secure, s.inputs[id].pipeline.secure),
                     ScheduleInvalid,
              Unless(world.storageOk, StorageFailed,
              Unless(id in s.schedules && req.enabled && !AnchorStays(s.schedules[id], req) ==>
                       cal.next(req.cron, now).Some?, ScheduleInvalid,
              Unless(world.committed, CommitFailed, None)))))))))
  {
    hide Schedules.Accepted, Secrets.Merge, MergeLaws.AllKnown, MergeLaws.Held, Lines.SplitLines, Schedules.UpdatedRow;
    if id in s.inputs {
      var out := MergeLaws.MergeMeans(req.run.pipeline.secure, s.inputs[id].pipeline.secure);
    }
  }

  lemma {:induction false} SwitchRefused(s: Store, cal: Schedules.Calendar, id: Id, enabled: bool, now: Time)
    ensures Answered(
              Schedules.SetEnabled(s, cal, id, enabled, now),
              Unless(id in s.schedules, ScheduleNotFound,
              Unless(id in s.schedules && enabled && !s.schedules[id].enabled ==>
                       cal.next(s.schedules[id].cron, now).Some?, ScheduleInvalid, None)))
  {
  }

  /** A firing by hand that makes its run but cannot keep it on the row is refused all the same. */
  lemma {:induction false} TriggerRefused(
    s: Store, cfg: Settings, id: Id, runId: Id, now: Time, world: World, committed: bool)
    ensures Answered(
              Schedules.TriggerNow(s, cfg, id, runId, now, world, committed),
              Unless(id in s.schedules, ScheduleNotFound,
              Unless(id in s.inputs && world.readable, InputNotAvailable,
              Unless(id in s.schedules ==> s.schedules[id].profileId in s.profiles, ProfileNotFound,
              Starting(cfg, world,
              Unless(committed, CommitFailed, None))))))
  {
    hide GivenOr, Masked, JobName;
  }
}
