/** What one event does to a single row: the whole-table step, seen from one run or one schedule. */
module Effects {
  import opened Options
  import opened Records
  import opened Operator
  import D = Dispatcher
  import Queue
  import Reconciler
  import Runs
  import Schedules
  import Secrets

  // ---------- runs

  /** The row of a run that was there before an event and is there afterwards. */
  function RunAfter(u: Setup, y: System, e: Event, id: Id): Run
    requires id in y.store.runs
  {
    var run, now := y.store.runs[id], y.clock;
    match e
    case CancelRun(i) => if i == id then CancelledRow(run, now) else run
    case DeliverStatus(i, report) => if i == id then Runs.ApplyStatus(run, report, now) else run
    case DeliverReport(i, code, ok) =>
      if i == id && ok then Runs.ApplyReportCode(run.(reportUpdatedAt := Some(now)), code) else run
    case UploadArtifacts(i, upload, ok) => if i == id && ok then Runs.ApplyUpload(run, upload, now) else run
    case AdmitTick(locked, refused) =>
      if u.cfg.jobCreationEnabled && id in Queue.Batch(y.store.runs, u.cfg, locked) then
        Queue.AdmitRun(run, id, y.store.profiles, refused, now)
      else run
    case ReconcileTick(seen) =>
      if Reconciler.TickSucceeds(y.store.runs, seen, u.cfg, now) && IsActive(run) then
        Reconciler.ReconcileRun(run, seen(id), u.cfg, now).value
      else run
    case _ => run
  }

  function CancelledRow(run: Run, now: Time): Run {
    if IsTerminal(run.status) || run.cancelRequestedAt.Some? then run
    else if run.jobName.None? then run.(cancelRequestedAt := Some(now), status := Cancelled, finishedAt := Some(now))
    else run.(cancelRequestedAt := Some(now))
  }

  /** A row that has just been added: waiting, or with a Job at once when there is no queue. */
  predicate IsNew(cfg: Settings, run: Run, id: Id, now: Time) {
    && run.cancelRequestedAt.None? && run.finishedAt.None? && run.finishCode.None? && run.createdAt == now
    && (|| (run.status == Queued && run.jobName.None? && run.statusUpdatedAt.None?)
        || (&& !cfg.queueEnabled && run.status == NotStarted && run.jobName == Some(JobName(id))
            && run.statusUpdatedAt == Some(now)))
  }

  predicate RunsMoved(u: Setup, y: System, e: Event, after: map<Id, Run>) {
    && (forall id | id in after && id in y.store.runs :: after[id] == RunAfter(u, y, e, id))
    && (forall id | id in after && id !in y.store.runs ::
          DrawnRunId(e) == Some(id) && IsNew(u.cfg, after[id], id, y.clock) && after[id].triggeredBy == Trigger(y, e))
    && (forall id | id in y.store.runs && id !in after :: e == DeleteRun(id, true, true))
  }

  /** The schedule a new run is tagged with. */
  function Trigger(y: System, e: Event): Option<Id> {
    match e
    case TriggerNow(schedule, _, _, _) => Some(schedule)
    case FireClaim(claim, _, _, _) => if claim < |y.claims| then Some(y.claims[claim].schedule) else None
    case _ => None
  }

  /** What every way of making a run does to the table: nothing, or one new row. */
  predicate Adds(before: map<Id, Run>, after: map<Id, Run>, cfg: Settings, id: Id, now: Time, trigger: Option<Id>) {
    || after == before
    || (&& id in after && after == before[id := after[id]]
        && IsNew(cfg, after[id], id, now) && after[id].triggeredBy == trigger)
  }

  lemma {:induction false} CreateRunAdds(
    s: Store, cfg: Settings, req: RunRequest, id: Id, trigger: Option<Id>, now: Time, world: World)
    ensures var r := Runs.CreateRun(s, cfg, req, id, trigger, now, world).store;
            Adds(s.runs, r.runs, cfg, id, now, trigger) && r.schedules == s.schedules
  {
    hide JobName, Masked, GivenOr;
  }

  lemma {:induction false} RetryAdds(
    s: Store, cfg: Settings, parent: Id, req: Runs.RetryRequest, id: Id, now: Time, stateOk: bool, world: World)
    ensures var r := Runs.Retry(s, cfg, parent, req, id, now, stateOk, world).store;
            Adds(s.runs, r.runs, cfg, id, now, None) && r.schedules == s.schedules
  {
    hide JobName, Masked, GivenOr;
  }

  lemma {:induction false} FireAdds(s: Store, cfg: Settings, id: Id, runId: Id, now: Time, world: World)
    requires id in s.schedules
    ensures var r := Schedules.Fire(s, cfg, id, runId, now, world).store;
            Adds(s.runs, r.runs, cfg, runId, now, Some(id)) && r.schedules == s.schedules
  {
    if id in s.inputs {
      var row := s.schedules[id];
      var req := RunRequest(row.profileId, s.inputs[id].pipeline, row.envVars, row.pdeImage, row.templateId);
      CreateRunAdds(s, cfg, req, runId, Some(id), now, world);
    }
  }

  lemma {:induction false} TriggerAdds(
    s: Store, cfg: Settings, id: Id, runId: Id, now: Time, world: World, committed: bool)
    ensures Adds(s.runs, Schedules.TriggerNow(s, cfg, id, runId, now, world, committed).store.runs,
                 cfg, runId, now, Some(id))
  {
    hide Adds, Schedules.Fire;
    if id in s.schedules {
      FireAdds(s, cfg, id, runId, now, world);
    } else {
      NothingAdded(s.runs, cfg, runId, now, Some(id));
    }
  }

  lemma {:induction false} FireClaimAdds(
    s: Store, cfg: Settings, id: Id, reading: Time, runId: Id, now: Time, world: World, committed: bool)
    ensures Adds(s.runs, D.FireClaim(s, cfg, id, reading, runId, now, world, committed).store.runs,
                 cfg, runId, now, Some(id))
  {
    hide Adds, Schedules.Fire;
    if id in s.schedules {
      FireAdds(s, cfg, id, runId, now, world);
    } else {
      NothingAdded(s.runs, cfg, runId, now, Some(id));
    }
  }

  lemma {:induction false} NothingAdded(runs: map<Id, Run>, cfg: Settings, id: Id, now: Time, trigger: Option<Id>)
    ensures Adds(runs, runs, cfg, id, now, trigger)
  {
  }

  predicate MakesRun(e: Event) {
    e.CreateRun? || e.RetryRun? || e.TriggerNow? || e.FireClaim?
  }

  predicate EndsRun(e: Event) {
    e.CancelRun? || e.DeleteRun?
  }

  predicate Delivers(e: Event) {
    e.DeliverStatus? || e.DeliverReport? || e.UploadArtifacts?
  }

  predicate Ticks(e: Event) {
    e.AdmitTick? || e.ReconcileTick?
  }

  lemma {:induction false} RunsAdded(u: Setup, y: System, e: Event)
    requires Enabled(y, e) && MakesRun(e)
    ensures Adds(y.store.runs, StoreAfter(u, y, e).runs, u.cfg, e.id, y.clock, Trigger(y, e))
  {
    hide Adds, Runs.CreateRun, Runs.Retry, Schedules.TriggerNow, D.FireClaim;
    var s, now := y.store, y.clock;
    match e
    case CreateRun(request, id, world) => CreateRunAdds(s, u.cfg, request, id, None, now, world);
    case RetryRun(parent, retry, id, stateOk, world) => RetryAdds(s, u.cfg, parent, retry, id, now, stateOk, world);
    case TriggerNow(schedule, id, world, committed) => TriggerAdds(s, u.cfg, schedule, id, now, world, committed);
    case FireClaim(claim, id, world, committed) =>
      var c := y.claims[claim];
      FireClaimAdds(s, u.cfg, c.schedule, c.reading, id, now, world, committed);
  }

  lemma {:induction false} CancelSetsRow(s: Store, id: Id, now: Time)
    ensures var r := Runs.Cancel(s, id, now).store;
            r.runs == if id in s.runs then s.runs[id := CancelledRow(s.runs[id], now)] else s.runs
  {
  }

  lemma {:induction false} RunsEnded(u: Setup, y: System, e: Event)
    requires Enabled(y, e) && EndsRun(e)
    ensures RunsMoved(u, y, e, StoreAfter(u, y, e).runs)
  {
    hide Runs.ApplyStatus, Runs.ApplyReportCode, Runs.ApplyUpload, IsNew, Trigger, Firing,
         Runs.CreateRun, Runs.Retry, Queue.Admit, Reconciler.Reconcile, Schedules.Create, Schedules.Update,
         Schedules.SetEnabled, Schedules.Delete, Schedules.DeleteAll, Schedules.TriggerNow, D.ClaimDue, Runs.Cancel,
         CancelledRow,
         Runs.DeliverStatus, Runs.DeliverReport, Runs.UploadArtifacts;
    if e.CancelRun? { CancelSetsRow(y.store, e.id, y.clock); }
  }

  lemma {:induction false} NothingUploaded(run: Run, up: Runs.Upload, now: Time)
    requires !Runs.UploadsSome(up)
    ensures Runs.ApplyUpload(run, up, now) == run
  {
  }

  /** A delivery sets at most the row of its run. */
  lemma {:induction false} DeliverySetsRow(u: Setup, y: System, e: Event)
    requires Enabled(y, e) && Delivers(e)
    ensures var s, t := y.store, StoreAfter(u, y, e);
            t.runs == if e.id in s.runs then s.runs[e.id := RunAfter(u, y, e, e.id)] else s.runs
  {
    hide Runs.ApplyStatus, Runs.ApplyReportCode, Runs.ApplyUpload, Runs.UploadsSome, IsNew, Trigger, Firing,
         Runs.CreateRun, Runs.Retry, Runs.Cancel, Runs.Delete, Queue.Admit, Reconciler.Reconcile, Schedules.Create,
         Schedules.Update, Schedules.SetEnabled, Schedules.Delete, Schedules.DeleteAll, Schedules.TriggerNow,
         D.ClaimDue;
    if e.UploadArtifacts? && e.id in y.store.runs && !Runs.UploadsSome(e.upload) {
      NothingUploaded(y.store.runs[e.id], e.upload, y.clock);
    }
  }

  lemma {:induction false} RunsDelivered(u: Setup, y: System, e: Event)
    requires Enabled(y, e) && Delivers(e)
    ensures RunsMoved(u, y, e, StoreAfter(u, y, e).runs)
  {
    hide StoreAfter, Runs.ApplyStatus, Runs.ApplyReportCode, Runs.ApplyUpload, IsNew, Trigger;
    DeliverySetsRow(u, y, e);
  }

  lemma {:induction false} RunsTicked(u: Setup, y: System, e: Event)
    requires Enabled(y, e) && Ticks(e)
    ensures RunsMoved(u, y, e, StoreAfter(u, y, e).runs)
  {
    hide Queue.Batch, Queue.AdmitRun, Reconciler.ReconcileRun, IsNew;
  }

  lemma {:induction false} RunsKept(u: Setup, y: System, e: Event)
    requires Enabled(y, e) && !MakesRun(e) && !EndsRun(e) && !Delivers(e) && !Ticks(e)
    ensures StoreAfter(u, y, e).runs == y.store.runs
  {
  }

  lemma {:induction false} RunsOfStep(u: Setup, y: System, e: Event)
    requires Enabled(y, e) && y.store.runs.Keys <= y.runIds
    ensures RunsMoved(u, y, e, StoreAfter(u, y, e).runs)
  {
    hide StoreAfter, IsNew;
    if MakesRun(e) {
      RunsAdded(u, y, e);
    } else if EndsRun(e) {
      RunsEnded(u, y, e);
    } else if Delivers(e) {
      RunsDelivered(u, y, e);
    } else if Ticks(e) {
      RunsTicked(u, y, e);
    } else {
      RunsKept(u, y, e);
    }
  }

  // ---------- schedules

  /** The row of a schedule that was there before an event and is there afterwards. */
  function ScheduleAfter(u: Setup, y: System, e: Event, id: Id): Schedule
    requires Enabled(y, e) && id in y.store.schedules
  {
    var s, now := y.store, y.clock;
    var row := s.schedules[id];
    match e
    case UpdateSchedule(i, request, world) =>
      if i == id && Schedules.Update(s, u.cfg, u.cal, id, request, now, world).Done? then
        Schedules.UpdatedRow(row, request, Schedules.Resolved(s, id, request).value, u.cal.next(request.cron, now), now)
      else row
    case SetEnabled(i, enabled) =>
      if i == id && row.enabled != enabled && Schedules.SetEnabled(s, u.cal, id, enabled, now).Done? then
        row.(enabled := enabled, nextFireAt := if enabled then u.cal.next(row.cron, now) else None, updatedAt := now)
      else row
    case TriggerNow(i, runId, world, committed) =>
      if i == id && committed && Schedules.Fire(s, u.cfg, id, runId, now, world).Done? then
        Schedules.ApplyFireResult(row, now, FireSuccess, Some(runId), None)
      else row
    case FireClaim(claim, runId, world, committed) =>
      var c := y.claims[claim];
      if c.schedule == id && committed then
        match Schedules.Fire(s, u.cfg, id, runId, now, world)
        case Raised(_, error) => Schedules.ApplyFireResult(row, c.reading, FireFailed, None, Some(NotFired(error)))
        case Done(_, _) => Schedules.ApplyFireResult(row, c.reading, FireSuccess, Some(runId), None)
      else row
    case ClaimDue(reading, locked) =>
      if id in D.Batch(s.schedules, u.cfg, reading, locked) then
        D.ClaimRow(row, D.IsBusy(s.runs, id), u.cal, u.cfg, reading)
      else row
    case _ => row
  }

  predicate SchedulesMoved(u: Setup, y: System, e: Event, after: map<Id, Schedule>)
    requires Enabled(y, e)
  {
    && (forall id | id in after && id in y.store.schedules :: after[id] == ScheduleAfter(u, y, e, id))
    && (forall id | id in after && id !in y.store.schedules ::
          && e.CreateSchedule? && e.id == id
          && var next := if e.definition.enabled then u.cal.next(e.definition.cron, y.clock) else None;
          && (e.definition.enabled ==> next.Some?)
          && after[id].cron == e.definition.cron && after[id].enabled == e.definition.enabled
          && after[id].overlap == e.definition.overlap && after[id].nextFireAt == next)
    && (forall id | id in y.store.schedules && id !in after ::
          e == DeleteSchedule(id, true, true) || e.DeleteAllSchedules?)
  }

  predicate EditsSchedules(e: Event) {
    e.CreateSchedule? || e.UpdateSchedule? || e.SetEnabled? || e.DeleteSchedule? || e.DeleteAllSchedules?
  }

  predicate FiresSchedule(e: Event) {
    e.TriggerNow? || e.FireClaim?
  }

  lemma {:induction false} UpdateSetsRow(
    s: Store, cfg: Settings, cal: Schedules.Calendar, id: Id, req: Schedules.ScheduleRequest, now: Time, world: World)
    ensures var r := Schedules.Update(s, cfg, cal, id, req, now, world);
            && (r.Done? ==>
                  && id in s.schedules && id in s.inputs && Schedules.Resolved(s, id, req).Some?
                  && var pipeline := Schedules.Resolved(s, id, req).value;
                     r.store.schedules == s.schedules[id := Schedules.UpdatedRow(
                       s.schedules[id], req, pipeline, cal.next(req.cron, now), now)])
            && (r.Raised? ==> r.store.schedules == s.schedules)
  {
    hide Schedules.UpdatedRow, Schedules.Resolved, Schedules.Accepted;
  }

  lemma {:induction false} CreateSetsRow(
    s: Store, cfg: Settings, cal: Schedules.Calendar, req: Schedules.ScheduleRequest, id: Id, now: Time, world: World)
    ensures var r := Schedules.Create(s, cfg, cal, req, id, now, world);
            var next := if req.enabled then cal.next(req.cron, now) else None;
            && (r.Done? ==>
                  && id in r.store.schedules && r.store.schedules == s.schedules[id := r.store.schedules[id]]
                  && var row := r.store.schedules[id];
                     && row.cron == req.cron && row.enabled == req.enabled && row.overlap == req.overlap
                     && row.nextFireAt == next && (req.enabled ==> next.Some?))
            && (r.Raised? ==> r.store.schedules == s.schedules)
  {
    hide Schedules.Accepted, Secrets.Merge, Masked;
  }

  lemma {:induction false} ScheduleCreated(u: Setup, y: System, e: Event)
    requires Enabled(y, e) && e.CreateSchedule?
    ensures SchedulesMoved(u, y, e, StoreAfter(u, y, e).schedules)
  {
    hide Schedules.Create, Schedules.Update, Schedules.UpdatedRow, Schedules.Resolved, Schedules.Fire, D.ClaimDue,
         Firing, D.ClaimRow, Schedules.ApplyFireResult, Schedules.SetEnabled, D.Batch, D.IsBusy;
    CreateSetsRow(y.store, u.cfg, u.cal, e.definition, e.id, y.clock, e.world);
  }

  lemma {:induction false} ScheduleUpdated(u: Setup, y: System, e: Event)
    requires Enabled(y, e) && e.UpdateSchedule?
    ensures SchedulesMoved(u, y, e, StoreAfter(u, y, e).schedules)
  {
    UpdateSetsRow(y.store, u.cfg, u.cal, e.id, e.definition, y.clock, e.world);
    hide Schedules.Create, Schedules.Update, Schedules.UpdatedRow, Schedules.Resolved, Schedules.Fire, D.ClaimDue,
         Firing;
  }

  lemma {:induction false} ScheduleSwitched(u: Setup, y: System, e: Event)
    requires Enabled(y, e) && e.SetEnabled?
    ensures SchedulesMoved(u, y, e, StoreAfter(u, y, e).schedules)
  {
    hide Firing, Schedules.TriggerNow, Schedules.Fire, D.ClaimDue, D.ClaimRow, Schedules.Create, Schedules.Update;
  }

  lemma {:induction false} SchedulesDeleted(u: Setup, y: System, e: Event)
    requires Enabled(y, e) && (e.DeleteSchedule? || e.DeleteAllSchedules?)
    ensures SchedulesMoved(u, y, e, StoreAfter(u, y, e).schedules)
  {
    hide Firing, Schedules.TriggerNow, Schedules.Fire, D.ClaimDue, D.ClaimRow, Schedules.Create, Schedules.Update;
  }

  lemma {:induction false} SchedulesClaimed(u: Setup, y: System, e: Event)
    requires Enabled(y, e) && e.ClaimDue?
    ensures SchedulesMoved(u, y, e, StoreAfter(u, y, e).schedules)
  {
    hide D.ClaimRow, D.Batch, D.ToFire, D.IsBusy, Firing;
  }

  lemma {:induction false} TriggerSetsRow(
    s: Store, cfg: Settings, id: Id, runId: Id, now: Time, world: World, committed: bool)
    ensures var t := Schedules.TriggerNow(s, cfg, id, runId, now, world, committed).store;
            t.schedules ==
              if id in s.schedules && committed && Schedules.Fire(s, cfg, id, runId, now, world).Done?
              then s.schedules[id := Schedules.ApplyFireResult(s.schedules[id], now, FireSuccess, Some(runId), None)]
              else s.schedules
  {
    if id in s.schedules { FireAdds(s, cfg, id, runId, now, world); }
    hide Schedules.Fire, Schedules.ApplyFireResult, Adds;
  }

  lemma {:induction false} ScheduleTriggered(u: Setup, y: System, e: Event)
    requires Enabled(y, e) && e.TriggerNow?
    ensures SchedulesMoved(u, y, e, StoreAfter(u, y, e).schedules)
  {
    TriggerSetsRow(y.store, u.cfg, e.schedule, e.id, y.clock, e.world, e.committed);
    hide Schedules.TriggerNow, Schedules.Fire, Schedules.ApplyFireResult, Schedules.Update, Schedules.SetEnabled,
         D.ClaimDue, Firing;
  }

  lemma {:induction false} FireSetsRow(
    s: Store, cfg: Settings, id: Id, reading: Time, runId: Id, now: Time, world: World, committed: bool)
    ensures var t := D.FireClaim(s, cfg, id, reading, runId, now, world, committed).store;
            t.schedules ==
              if id in s.schedules && committed
              then s.schedules[id := match Schedules.Fire(s, cfg, id, runId, now, world)
                                     case Raised(_, error) => Schedules.ApplyFireResult(
                                       s.schedules[id], reading, FireFailed, None, Some(NotFired(error)))
                                     case Done(_, _) => Schedules.ApplyFireResult(
                                       s.schedules[id], reading, FireSuccess, Some(runId), None)]
              else s.schedules
  {
    if id in s.schedules { FireAdds(s, cfg, id, runId, now, world); }
    hide Schedules.Fire, Schedules.ApplyFireResult, Adds;
  }

  lemma {:induction false} ScheduleFired(u: Setup, y: System, e: Event)
    requires Enabled(y, e) && e.FireClaim?
    ensures SchedulesMoved(u, y, e, StoreAfter(u, y, e).schedules)
  {
    var c := y.claims[e.claim];
    FireSetsRow(y.store, u.cfg, c.schedule, c.reading, e.id, y.clock, e.world, e.committed);
    hide D.FireClaim, Schedules.Fire, Schedules.ApplyFireResult, Schedules.Update, Schedules.SetEnabled, D.ClaimDue;
  }

  lemma {:induction false} SchedulesKept(u: Setup, y: System, e: Event)
    requires Enabled(y, e) && !EditsSchedules(e) && !FiresSchedule(e) && !e.ClaimDue?
    ensures StoreAfter(u, y, e).schedules == y.store.schedules
  {
    hide Runs.StartJobNow, Runs.NewRun, Runs.ApplyStatus, Runs.ApplyUpload, Runs.ApplyReportCode, GivenOr;
  }

  lemma {:induction false} SchedulesOfStep(u: Setup, y: System, e: Event)
    requires Enabled(y, e)
    ensures SchedulesMoved(u, y, e, StoreAfter(u, y, e).schedules)
  {
    hide StoreAfter;
    if e.CreateSchedule? {
      ScheduleCreated(u, y, e);
    } else if e.UpdateSchedule? {
      ScheduleUpdated(u, y, e);
    } else if e.SetEnabled? {
      ScheduleSwitched(u, y, e);
    } else if e.DeleteSchedule? || e.DeleteAllSchedules? {
      SchedulesDeleted(u, y, e);
    } else if e.TriggerNow? {
      ScheduleTriggered(u, y, e);
    } else if e.FireClaim? {
      ScheduleFired(u, y, e);
    } else if e.ClaimDue? {
      SchedulesClaimed(u, y, e);
    } else {
      SchedulesKept(u, y, e);
    }
  }
}
