/** What a run row keeps through every sequence of events, whatever a Job delivers. */
module Lifecycle {
  import opened Effects
  import opened Operator
  import opened Options
  import opened Records
  import D = Dispatcher
  import Queue
  import Reconciler
  import Runs

  /** Ids are never shared between runs and schedules, and drawn ids are remembered. */
  predicate Sound(y: System) {
    && y.store.runs.Keys <= y.runIds && y.store.schedules.Keys <= y.scheduleIds && y.runIds !! y.scheduleIds
    && (forall i | i in y.inFlight :: i < |y.claims|)
    && (forall i | 0 <= i < |y.fired| :: y.fired[i].claim < |y.claims|)
  }

  lemma {:induction false} StepSound(u: Setup, y: System, e: Event)
    requires Sound(y) && Enabled(y, e)
    ensures Sound(Step(u, y, e))
    ensures y.runIds <= Step(u, y, e).runIds && y.clock <= Step(u, y, e).clock
  {
    hide StoreAfter, RunAfter, ScheduleAfter, IsNew, D.ClaimDue, Firing, Reconciler.TickSucceeds, Trigger;
    RunsOfStep(u, y, e);
    SchedulesOfStep(u, y, e);
  }

  lemma {:induction false} AfterSound(u: Setup, y: System, events: seq<Event>)
    requires Sound(y) && Possible(u, y, events)
    ensures Sound(After(u, y, events)) && y.runIds <= After(u, y, events).runIds
    ensures y.clock <= After(u, y, events).clock
    decreases |events|
  {
    hide Sound, Step, Enabled;
    if events != [] {
      var n := |events| - 1;
      AfterSound(u, y, events[..n]);
      StepSound(u, After(u, y, events[..n]), events[n]);
    }
  }

  // ---------- one row

  /** What holds of a run row at any time. */
  predicate Sane(run: Run, id: Id) {
    && (IsTerminal(run.status) ==> run.finishedAt.Some?)
    && (run.jobName.Some? ==> run.jobName == Some(JobName(id)) && run.statusUpdatedAt.Some?)
  }

  /** The columns a run row is made with and keeps. */
  predicate SameOrigin(before: Run, after: Run) {
    && after.profileId == before.profileId && after.pdeImage == before.pdeImage && after.pipeline == before.pipeline
    && after.retryVars == before.retryVars && after.envVars == before.envVars && after.triggeredBy == before.triggeredBy
    && after.retryOf == before.retryOf && after.templateId == before.templateId && after.createdAt == before.createdAt
  }

  /** What a later version of a run row keeps of an earlier one. */
  predicate Follows(before: Run, after: Run) {
    && (before.jobName.Some? ==> after.jobName == before.jobName)
    && (before.cancelRequestedAt.Some? ==> after.cancelRequestedAt == before.cancelRequestedAt)
    && (before.name.Some? ==> after.name == before.name)
    && (before.startedAt.Some? ==> after.startedAt == before.startedAt)
    && (Runs.IsOperatorCode(before.finishCode) ==> Runs.IsOperatorCode(after.finishCode))
    && SameOrigin(before, after)
  }

  function Rank(s: Status): nat {
    match s
    case Queued => 0
    case NotStarted => 1
    case InProgress => 2
    case _ => 3
  }

  lemma {:induction false} OperatorCodes()
    ensures Runs.IsOperatorCode(Some(Reconciler.CODE_STUCK)) && Runs.IsOperatorCode(Some(Reconciler.CODE_FAILED))
    ensures Runs.IsOperatorCode(Some(Reconciler.CODE_MISSING)) && Runs.IsOperatorCode(Some(Reconciler.CODE_CANCELLED))
  {
  }

  lemma {:induction false} EndedKeeps(
    run: Run, status: Status, at: Option<Time>, code: Option<string>, message: Option<string>, id: Id)
    requires Sane(run, id) && at.Some? && Rank(run.status) <= Rank(status)
    requires Runs.IsOperatorCode(run.finishCode) ==> Runs.IsOperatorCode(code)
    ensures var r := Reconciler.Ended(run, status, at, code, message);
            Sane(r, id) && Follows(run, r) && Rank(run.status) <= Rank(r.status) && r.jobName == run.jobName
  {
    hide Runs.IsOperatorCode, JobName;
  }

  lemma {:induction false} LostKeeps(run: Run, now: Time, code: string, message: string, id: Id)
    requires Sane(run, id) && Runs.IsOperatorCode(Some(code))
    ensures var r := Reconciler.Lost(run, now, code, message);
            Sane(r, id) && Follows(run, r) && Rank(run.status) <= Rank(r.status) && r.jobName == run.jobName
  {
    OperatorCodes();
    hide Runs.IsOperatorCode, Reconciler.Ended, Sane, Follows;
    var status := if run.cancelRequestedAt.Some? then Cancelled else Failed;
    var at := Reconciler.OrNow(run.finishedAt, now);
    var newCode := if run.cancelRequestedAt.Some? then Reconciler.CODE_CANCELLED else code;
    EndedKeeps(run, status, at, run.finishCode, run.finishMessage, id);
    if run.finishCode.None? { EndedKeeps(run, status, at, Some(newCode), Some(message), id); }
  }

  lemma {:induction false} ReconcileKeeps(run: Run, obs: Reconciler.Observation, cfg: Settings, now: Time, id: Id)
    requires Sane(run, id) && Reconciler.ReconcileRun(run, obs, cfg, now).Some?
    ensures var r := Reconciler.ReconcileRun(run, obs, cfg, now).value;
            Sane(r, id) && Follows(run, r) && Rank(run.status) <= Rank(r.status) && r.jobName == run.jobName
  {
    OperatorCodes();
    FollowsItself(run);
    hide Runs.IsOperatorCode, Reconciler.Ended, Reconciler.Lost, Reconciler.StuckMessage, Reconciler.IsStuck, Sane,
         Follows;
    match obs.phase
    case Some(JobSucceeded) =>
      var status := if IsTerminal(run.status) then run.status else Success;
      EndedKeeps(run, status, Reconciler.OrNow(run.finishedAt, now), run.finishCode, run.finishMessage, id);
    case Some(JobFailed) =>
      var diagnostic := obs.diagnostic.GetOr(None).GetOr("");
      var message := if diagnostic != "" then diagnostic else "Kubernetes Job failed.";
      LostKeeps(run, now, Reconciler.CODE_FAILED, message, id);
    case Some(JobMissing) => LostKeeps(run, now, Reconciler.CODE_MISSING, "Kubernetes Job no longer exists.", id);
    case Some(JobActive) => ActiveKeeps(run, obs, cfg, now, id);
  }

  lemma {:induction false} FollowsItself(run: Run)
    ensures Follows(run, run)
  {
  }

  lemma {:induction false} ActiveKeeps(run: Run, obs: Reconciler.Observation, cfg: Settings, now: Time, id: Id)
    requires Sane(run, id) && obs.phase == Some(Reconciler.JobActive)
    requires Reconciler.ReconcileRun(run, obs, cfg, now).Some?
    ensures var r := Reconciler.ReconcileRun(run, obs, cfg, now).value;
            Sane(r, id) && Follows(run, r) && Rank(run.status) <= Rank(r.status) && r.jobName == run.jobName
  {
    OperatorCodes();
    FollowsItself(run);
    hide Runs.IsOperatorCode, Reconciler.Ended, Reconciler.StuckMessage, Reconciler.IsStuck, Sane, Follows;
    if run.cancelRequestedAt.Some? {
      EndedKeeps(run, Cancelled, Some(now), Some(Reconciler.CODE_CANCELLED),
                 Some("Run cancelled; Kubernetes Job removed after grace period."), id);
    } else if obs.diagnostic.Some? {
      var message := Reconciler.StuckMessage(obs.diagnostic.value);
      EndedKeeps(run, Failed, Some(now), Some(Reconciler.CODE_STUCK), Some(message), id);
    }
  }

  lemma {:induction false} DeliveryKeeps(run: Run, report: Runs.StatusReport, now: Time, id: Id)
    requires Sane(run, id)
    ensures var r := Runs.ApplyStatus(run, report, now);
            Sane(r, id) && Follows(run, r) && r.jobName == run.jobName
  {
    hide Runs.IsOperatorCode, JobName, Runs.ParseStatus;
  }

  lemma {:induction false} CancelKeeps(run: Run, now: Time, id: Id)
    requires Sane(run, id)
    ensures var r := CancelledRow(run, now);
            Sane(r, id) && Follows(run, r) && Rank(run.status) <= Rank(r.status) && r.jobName == run.jobName
  {
    hide Runs.IsOperatorCode, JobName;
  }

  lemma {:induction false} ReportKeeps(run: Run, code: Option<string>, now: Time, id: Id)
    requires Sane(run, id)
    ensures var r := Runs.ApplyReportCode(run.(reportUpdatedAt := Some(now)), code);
            Sane(r, id) && Follows(run, r) && r.status == run.status && r.jobName == run.jobName
  {
    hide JobName;
  }

  lemma {:induction false} UploadKeeps(run: Run, upload: Runs.Upload, now: Time, id: Id)
    requires Sane(run, id)
    ensures var r := Runs.ApplyUpload(run, upload, now);
            Sane(r, id) && Follows(run, r) && r.status == run.status && r.jobName == run.jobName
  {
    hide Runs.IsOperatorCode, JobName;
  }

  lemma {:induction false} AdmitKeeps(run: Run, id: Id, profiles: map<string, string>, refused: set<Id>, now: Time)
    requires Sane(run, id) && run.status == Queued
    ensures var r := Queue.AdmitRun(run, id, profiles, refused, now); Sane(r, id) && Follows(run, r)
  {
    hide Runs.IsOperatorCode, JobName;
  }

  lemma {:induction false} TickAnswers(
    runs: map<Id, Run>, seen: Id -> Reconciler.Observation, cfg: Settings, now: Time, id: Id)
    requires Reconciler.TickSucceeds(runs, seen, cfg, now) && id in runs && IsActive(runs[id])
    ensures Reconciler.ReconcileRun(runs[id], seen(id), cfg, now).Some?
  {
    hide Reconciler.ReconcileRun;
  }

  /** A row after an event is sane again, follows the row before, and only a status delivery sets it back. */
  lemma {:induction false} RunKeeps(u: Setup, y: System, e: Event, id: Id)
    requires id in y.store.runs && Sane(y.store.runs[id], id)
    ensures var before, after := y.store.runs[id], RunAfter(u, y, e, id);
            && Sane(after, id) && Follows(before, after)
            && (!(e.DeliverStatus? && e.id == id) ==> Rank(before.status) <= Rank(after.status))
            && (before.jobName != after.jobName ==> before.status == Queued && e.AdmitTick?)
  {
    hide Reconciler.ReconcileRun, Runs.ApplyStatus, Runs.ApplyReportCode, Runs.ApplyUpload, CancelledRow,
         Queue.AdmitRun;
    hide Runs.IsOperatorCode, Queue.Batch, Reconciler.TickSucceeds, Sane, Follows, IsActive;
    var run, now := y.store.runs[id], y.clock;
    FollowsItself(run);
    match e
    case CancelRun(_) => CancelKeeps(run, now, id);
    case DeliverStatus(_, report) => DeliveryKeeps(run, report, now, id);
    case DeliverReport(_, code, _) => ReportKeeps(run, code, now, id);
    case UploadArtifacts(_, upload, _) => UploadKeeps(run, upload, now, id);
    case AdmitTick(locked, refused) =>
      if id in Queue.Batch(y.store.runs, u.cfg, locked) { AdmitKeeps(run, id, y.store.profiles, refused, now); }
    case ReconcileTick(seen) =>
      if Reconciler.TickSucceeds(y.store.runs, seen, u.cfg, now) && IsActive(run) {
        TickAnswers(y.store.runs, seen, u.cfg, now, id);
        ReconcileKeeps(run, seen(id), u.cfg, now, id);
      }
    case _ =>
  }

  predicate AllSane(runs: map<Id, Run>) {
    forall id | id in runs :: Sane(runs[id], id)
  }

  lemma {:induction false} StepSane(u: Setup, y: System, e: Event)
    requires Sound(y) && Enabled(y, e) && AllSane(y.store.runs)
    ensures AllSane(StoreAfter(u, y, e).runs)
  {
    hide StoreAfter, RunAfter, Enabled, Trigger, JobName;
    RunsOfStep(u, y, e);
    var runs := StoreAfter(u, y, e).runs;
    forall id | id in runs ensures Sane(runs[id], id) {
      if id in y.store.runs { RunKeeps(u, y, e, id); }
    }
  }

  // ---------- all rows, all sequences of events

  /** In every reachable state a finished run has its finishing time, and a Job name is the one made from the id. */
  lemma {:induction false} AlwaysSane(u: Setup, y: System, events: seq<Event>)
    requires Sound(y) && AllSane(y.store.runs) && Possible(u, y, events)
    ensures AllSane(After(u, y, events).store.runs)
    decreases |events|
  {
    hide Sound, AllSane, StoreAfter, Enabled;
    if events != [] {
      var n := |events| - 1;
      AfterSound(u, y, events[..n]);
      AlwaysSane(u, y, events[..n]);
      StepSane(u, After(u, y, events[..n]), events[n]);
    }
  }

  predicate Delivered(events: seq<Event>, id: Id) {
    exists i | 0 <= i < |events| :: events[i].DeliverStatus? && events[i].id == id
  }

  lemma {:induction false} FollowsOn(a: Run, b: Run, c: Run)
    requires Follows(a, b) && Follows(b, c)
    ensures Follows(a, c)
  {
  }

  /** A run that is there after an event was there before, unless the event draws its id. */
  lemma {:induction false} WasThere(u: Setup, y: System, e: Event, id: Id)
    requires Sound(y) && Enabled(y, e) && id in y.runIds && id in StoreAfter(u, y, e).runs
    ensures id in y.store.runs && StoreAfter(u, y, e).runs[id] == RunAfter(u, y, e, id)
  {
    hide StoreAfter, RunAfter, IsNew;
    RunsOfStep(u, y, e);
  }

  /** The last of some events is possible where the others have led, and makes the tables at the end. */
  lemma {:induction false} LastStep(u: Setup, y: System, events: seq<Event>)
    requires Possible(u, y, events) && events != []
    ensures var n := |events| - 1;
            && Possible(u, y, events[..n]) && Enabled(After(u, y, events[..n]), events[n])
            && After(u, y, events).store == StoreAfter(u, After(u, y, events[..n]), events[n])
  {
    hide StoreAfter, Enabled, Firing, D.ClaimDue, NewClaims, Positions, Reconciler.TickSucceeds;
  }

  /**
   * Between any two points of any sequence of events a run keeps its Job name, the time a cancel was asked for, its
   * name, its start, its inputs, and an operator finish code is only replaced by an operator finish code; its
   * progress is only ever set back by a status delivery.
   */
  lemma {:induction false} HistoryOfRun(u: Setup, y: System, events: seq<Event>, id: Id)
    requires Sound(y) && AllSane(y.store.runs) && Possible(u, y, events)
    requires id in y.store.runs && id in After(u, y, events).store.runs
    ensures var before, after := y.store.runs[id], After(u, y, events).store.runs[id];
            && Follows(before, after)
            && (Rank(after.status) < Rank(before.status) ==> Delivered(events, id))
    decreases |events|
  {
    FollowsItself(y.store.runs[id]);
    if events != [] {
      LastStep(u, y, events);
      hide AllSane, StoreAfter, Enabled, Follows, RunAfter, Rank, After, Possible, Delivered;
      var n := |events| - 1;
      var before, z := events[..n], After(u, y, events[..n]);
      AfterSound(u, y, before);
      WasThere(u, z, events[n], id);
      HistoryOfRun(u, y, before, id);
      AlwaysSane(u, y, before);
      assert Sane(z.store.runs[id], id) by { SaneOf(z.store.runs, id); }
      RunKeeps(u, z, events[n], id);
      FollowsOn(y.store.runs[id], z.store.runs[id], RunAfter(u, z, events[n], id));
      DeliveredGrows(events, id);
    }
  }

  lemma {:induction false} SaneOf(runs: map<Id, Run>, id: Id)
    requires AllSane(runs) && id in runs
    ensures Sane(runs[id], id)
  {
  }

  lemma {:induction false} DeliveredGrows(events: seq<Event>, id: Id)
    requires events != []
    ensures var n := |events| - 1;
            Delivered(events, id) <==> Delivered(events[..n], id) || (events[n].DeliverStatus? && events[n].id == id)
  {
    var n := |events| - 1;
    assert events == events[..n] + [events[n]];
    if Delivered(events[..n], id) {
      var i :| 0 <= i < n && events[..n][i].DeliverStatus? && events[..n][i].id == id;
      assert events[i] == events[..n][i];
    }
  }
}
