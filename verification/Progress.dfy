/** How long a run can go on: deadlines that hold in every reachable state, whatever the cluster reports. */
module Progress {
  import opened Capacity
  import opened Effects
  import opened Lifecycle
  import opened Operator
  import opened Options
  import opened Records
  import D = Dispatcher
  import Queue
  import Reconciler
  import Runs

  /** When the first complete tick ends a run: the grace after a cancel, or the timeout after the last progress. */
  function Deadline(run: Run, cfg: Settings): Time {
    match run.cancelRequestedAt
    case Some(at) => at + cfg.cancelGrace
    case None => run.statusUpdatedAt.GetOr(run.startedAt.GetOr(run.createdAt)) + cfg.stuckTimeout
  }

  /** A tick that gets its answers at or after the deadline ends the run, whatever the answers are. */
  lemma {:induction false} TickEnds(run: Run, obs: Reconciler.Observation, cfg: Settings, now: Time)
    requires Deadline(run, cfg) <= now && Reconciler.ReconcileRun(run, obs, cfg, now).Some?
    ensures IsTerminal(Reconciler.ReconcileRun(run, obs, cfg, now).value.status)
  {
    hide Reconciler.StuckMessage;
  }

  lemma {:induction false} SurvivorUnchanged(run: Run, obs: Reconciler.Observation, cfg: Settings, now: Time)
    requires Reconciler.ReconcileRun(run, obs, cfg, now).Some?
    requires !IsTerminal(Reconciler.ReconcileRun(run, obs, cfg, now).value.status)
    ensures Reconciler.ReconcileRun(run, obs, cfg, now).value == run && now < Deadline(run, cfg)
  {
    hide Reconciler.StuckMessage, Deadline;
    if Deadline(run, cfg) <= now { TickEnds(run, obs, cfg, now); }
  }

  /** The last time the row heard of a progress or a cancel. */
  function LastHeard(run: Run): Option<Time> {
    if run.cancelRequestedAt.None? then run.statusUpdatedAt
    else if run.statusUpdatedAt.None? then run.cancelRequestedAt
    else Some(Max(run.statusUpdatedAt.value, run.cancelRequestedAt.value))
  }

  /** The last complete tick came before the deadline, or no later than something the row has heard since. */
  predicate InTime(run: Run, cfg: Settings, tick: Option<Time>) {
    tick.Some? ==> tick.value < Deadline(run, cfg) || (LastHeard(run).Some? && tick.value <= LastHeard(run).value)
  }

  predicate AllInTime(y: System, cfg: Settings) {
    && (y.lastTick.Some? ==> y.lastTick.value <= y.clock)
    && forall id | id in y.store.runs && IsActive(y.store.runs[id]) :: InTime(y.store.runs[id], cfg, y.lastTick)
  }

  predicate TickHappens(u: Setup, y: System, e: Event) {
    e.ReconcileTick? && Reconciler.TickSucceeds(y.store.runs, e.seen, u.cfg, y.clock)
  }

  function TickAfter(u: Setup, y: System, e: Event): Option<Time> {
    if TickHappens(u, y, e) then Some(y.clock) else y.lastTick
  }

  lemma {:induction false} StepClock(u: Setup, y: System, e: Event)
    requires Enabled(y, e)
    ensures var z := Step(u, y, e);
            z.store == StoreAfter(u, y, e) && z.lastTick == TickAfter(u, y, e) && y.clock <= z.clock
  {
    hide StoreAfter, Firing, D.ClaimDue, Enabled, Reconciler.TickSucceeds, NewClaims, Positions;
  }

  /** The columns that deadlines are counted from. */
  predicate SameTimes(a: Run, b: Run) {
    && a.cancelRequestedAt == b.cancelRequestedAt && a.statusUpdatedAt == b.statusUpdatedAt
    && a.startedAt == b.startedAt && a.createdAt == b.createdAt && IsActive(a) == IsActive(b)
  }

  /** The row has heard something no earlier than a given instant. */
  predicate Heard(run: Run, now: Time) {
    LastHeard(run).Some? && now <= LastHeard(run).value
  }

  lemma {:induction false} SameTimesItself(run: Run)
    ensures SameTimes(run, run)
  {
  }

  lemma {:induction false} DeliveryHeard(run: Run, report: Runs.StatusReport, now: Time)
    ensures Heard(Runs.ApplyStatus(run, report, now), now)
  {
  }

  lemma {:induction false} CancelHeard(run: Run, now: Time)
    ensures var r := CancelledRow(run, now); IsActive(r) ==> SameTimes(run, r) || Heard(r, now)
  {
  }

  lemma {:induction false} ReportHeard(run: Run, code: Option<string>, now: Time)
    ensures SameTimes(run, Runs.ApplyReportCode(run.(reportUpdatedAt := Some(now)), code))
  {
  }

  lemma {:induction false} UploadHeard(run: Run, upload: Runs.Upload, now: Time)
    ensures SameTimes(run, Runs.ApplyUpload(run, upload, now))
  {
  }

  lemma {:induction false} AdmissionHeard(
    run: Run, id: Id, profiles: map<string, string>, refused: set<Id>, now: Time)
    ensures var r := Queue.AdmitRun(run, id, profiles, refused, now); IsActive(r) ==> SameTimes(run, r) || Heard(r, now)
  {
  }

  /** What an event that leaves a run with a Job has done to those columns. */
  lemma {:induction false} TimesAfter(u: Setup, y: System, e: Event, id: Id)
    requires id in y.store.runs && IsActive(RunAfter(u, y, e, id))
    ensures var before, after := y.store.runs[id], RunAfter(u, y, e, id);
            || (SameTimes(before, after) && (TickHappens(u, y, e) ==> y.clock < Deadline(before, u.cfg)))
            || (Heard(after, y.clock) && !TickHappens(u, y, e))
  {
    hide JobName, Runs.ApplyStatus, Runs.ApplyReportCode, Runs.ApplyUpload, CancelledRow, Queue.AdmitRun;
    hide Queue.Batch, Reconciler.ReconcileRun, Deadline, SameTimes, Heard;
    var run, now := y.store.runs[id], y.clock;
    SameTimesItself(run);
    match e
    case CancelRun(_) => CancelHeard(run, now);
    case DeliverStatus(_, report) => DeliveryHeard(run, report, now);
    case DeliverReport(_, code, _) => ReportHeard(run, code, now);
    case UploadArtifacts(_, upload, _) => UploadHeard(run, upload, now);
    case AdmitTick(_, refused) => AdmissionHeard(run, id, y.store.profiles, refused, now);
    case ReconcileTick(seen) =>
      if TickHappens(u, y, e) && IsActive(run) {
        TickAnswers(y.store.runs, seen, u.cfg, now, id);
        SurvivorUnchanged(run, seen(id), u.cfg, now);
      }
    case _ =>
  }

  /** An event leaves the row of a run that holds a Job in time. */
  lemma {:induction false} StaysInTime(u: Setup, y: System, e: Event, id: Id)
    requires id in y.store.runs && IsActive(RunAfter(u, y, e, id))
    requires y.lastTick.Some? ==> y.lastTick.value <= y.clock
    requires IsActive(y.store.runs[id]) ==> InTime(y.store.runs[id], u.cfg, y.lastTick)
    ensures InTime(RunAfter(u, y, e, id), u.cfg, TickAfter(u, y, e))
  {
    hide RunAfter, TickHappens, JobName;
    TimesAfter(u, y, e, id);
  }

  lemma {:induction false} StepInTime(u: Setup, y: System, e: Event)
    requires Sound(y) && AllInTime(y, u.cfg) && Enabled(y, e)
    ensures AllInTime(Step(u, y, e), u.cfg)
  {
    hide StoreAfter, Step, RunAfter, InTime, JobName, TickHappens;
    StepClock(u, y, e);
    RunsOfStep(u, y, e);
    var z := Step(u, y, e);
    forall id | id in z.store.runs && IsActive(z.store.runs[id]) ensures InTime(z.store.runs[id], u.cfg, z.lastTick) {
      if id in y.store.runs { StaysInTime(u, y, e, id); } else { NewInTime(u, y, e, z.store.runs[id], id); }
    }
  }

  lemma {:induction false} NewInTime(u: Setup, y: System, e: Event, run: Run, id: Id)
    requires IsNew(u.cfg, run, id, y.clock) && IsActive(run)
    requires y.lastTick.Some? ==> y.lastTick.value <= y.clock
    ensures InTime(run, u.cfg, TickAfter(u, y, e))
  {
    hide JobName, TickHappens;
  }

  lemma {:induction false} AlwaysInTime(u: Setup, y: System, events: seq<Event>)
    requires Sound(y) && AllInTime(y, u.cfg) && Possible(u, y, events)
    ensures AllInTime(After(u, y, events), u.cfg)
    decreases |events|
  {
    hide Sound, AllInTime, Step, Enabled;
    if events != [] {
      var n := |events| - 1;
      AfterSound(u, y, events[..n]);
      AlwaysInTime(u, y, events[..n]);
      StepInTime(u, After(u, y, events[..n]), events[n]);
    }
  }

  /**
   * In every reachable state whose last complete tick is at most `interval` ago, no run holds a Job for longer than
   * `interval` past its deadline, or past the last thing it has heard if that came later. Reports of the cluster,
   * failed ticks in between and deliveries that revive runs are all allowed.
   */
  lemma {:induction false} BoundedTermination(u: Setup, y: System, events: seq<Event>, interval: nat, id: Id)
    requires Initial(y) && Possible(u, y, events)
    requires var z := After(u, y, events);
             && z.lastTick.Some? && z.clock <= z.lastTick.value + interval
             && id in z.store.runs && IsActive(z.store.runs[id])
    ensures var z := After(u, y, events);
            || z.clock < Deadline(z.store.runs[id], u.cfg) + interval
            || (LastHeard(z.store.runs[id]).Some? && z.clock <= LastHeard(z.store.runs[id]).value + interval)
  {
    hide After, Possible, Deadline, LastHeard;
    AlwaysInTime(u, y, events);
  }

  // ---------- cancelled runs that no delivery reopens

  /** A delivery that makes a finished run unfinished again. */
  predicate Reopens(y: System, e: Event, id: Id) {
    && e.DeliverStatus? && e.id == id && id in y.store.runs && IsTerminal(y.store.runs[id].status)
    && !IsTerminal(Runs.ApplyStatus(y.store.runs[id], e.report, y.clock).status)
  }

  predicate Reopened(u: Setup, y: System, events: seq<Event>, id: Id)
    requires Possible(u, y, events)
    decreases |events|
  {
    events != [] &&
    (var n := |events| - 1;
     Reopened(u, y, events[..n], id) || Reopens(After(u, y, events[..n]), events[n], id))
  }

  /** A cancelled run is finished if it has no Job, and otherwise no complete tick has come after its grace. */
  predicate CancelInTime(y: System, cfg: Settings, id: Id) {
    && (y.lastTick.Some? ==> y.lastTick.value <= y.clock)
    && (id in y.store.runs && y.store.runs[id].cancelRequestedAt.Some? && !IsTerminal(y.store.runs[id].status) ==>
          && y.store.runs[id].jobName.Some?
          && (y.lastTick.Some? ==>
                y.lastTick.value <= y.store.runs[id].cancelRequestedAt.value + Max(cfg.cancelGrace, 0)))
  }

  lemma {:induction false} StepCancelInTime(u: Setup, y: System, e: Event, id: Id)
    requires Sound(y) && Enabled(y, e) && CancelInTime(y, u.cfg, id) && !Reopens(y, e, id)
    ensures CancelInTime(Step(u, y, e), u.cfg, id)
  {
    hide StoreAfter, Step, RunAfter, JobName, TickHappens, Reopens, Runs.ApplyStatus;
    StepClock(u, y, e);
    RunsOfStep(u, y, e);
    if id in y.store.runs && id in StoreAfter(u, y, e).runs { RunCancelInTime(u, y, e, id); }
  }

  lemma {:induction false} RunCancelInTime(u: Setup, y: System, e: Event, id: Id)
    requires id in y.store.runs && CancelInTime(y, u.cfg, id) && !Reopens(y, e, id)
    ensures var after := RunAfter(u, y, e, id);
            after.cancelRequestedAt.Some? && !IsTerminal(after.status) ==>
              && after.jobName.Some?
              && (TickAfter(u, y, e).Some? ==>
                    TickAfter(u, y, e).value <= after.cancelRequestedAt.value + Max(u.cfg.cancelGrace, 0))
  {
    hide JobName, Runs.ParseStatus, Runs.IsOperatorCode, Queue.Batch, Reconciler.ReconcileRun;
    var run := y.store.runs[id];
    if TickHappens(u, y, e) && IsActive(run) {
      var after := Reconciler.ReconcileRun(run, e.seen(id), u.cfg, y.clock).value;
      if !IsTerminal(after.status) { SurvivorUnchanged(run, e.seen(id), u.cfg, y.clock); }
    }
  }

  /** A cancelled run that nothing reopens is over by its grace and the interval between complete ticks. */
  lemma {:induction false} CancelTakesEffect(u: Setup, y: System, events: seq<Event>, interval: nat, id: Id)
    requires Sound(y) && CancelInTime(y, u.cfg, id) && Possible(u, y, events) && !Reopened(u, y, events, id)
    ensures CancelInTime(After(u, y, events), u.cfg, id)
    ensures var z := After(u, y, events);
            z.lastTick.Some? && z.clock <= z.lastTick.value + interval &&
            id in z.store.runs && z.store.runs[id].cancelRequestedAt.Some? && !IsTerminal(z.store.runs[id].status) ==>
              z.clock <= z.store.runs[id].cancelRequestedAt.value + Max(u.cfg.cancelGrace, 0) + interval
    decreases |events|
  {
    hide Sound, Step, Enabled, Reopens, Max;
    if events != [] {
      var n := |events| - 1;
      AfterSound(u, y, events[..n]);
      CancelTakesEffect(u, y, events[..n], interval, id);
      StepCancelInTime(u, After(u, y, events[..n]), events[n], id);
    }
  }
}
