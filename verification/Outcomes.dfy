/** How runs begin, go on and end: what each event makes of a run row, in the words of the table. */
module Outcomes {
  import opened Operator
  import opened Options
  import opened Records
  import Lines
  import R = Reconciler
  import Runs

  // ---------- a tick of the reconciler

  /** Nothing has been heard of a run for as long as the timeout: since its last status, its start or its creation. */
  predicate Silent(run: Run, cfg: Settings, now: Time) {
    match run.statusUpdatedAt
    case Some(at) => at + cfg.stuckTimeout <= now
    case None =>
      match run.startedAt
      case Some(at) => at + cfg.stuckTimeout <= now
      case None => run.createdAt + cfg.stuckTimeout <= now
  }

  /** A cancel was asked for as long ago as the grace. */
  predicate GraceOver(run: Run, cfg: Settings, now: Time) {
    run.cancelRequestedAt.Some? && run.cancelRequestedAt.value + cfg.cancelGrace <= now
  }

  /** The cluster says what has become of a Job, and why it failed or hangs where the operator needs a reason. */
  predicate Answers(run: Run, obs: R.Observation, cfg: Settings, now: Time) {
    && obs.phase.Some?
    && ((|| (obs.phase == Some(R.JobFailed) && run.finishCode.None?)
         || (obs.phase == Some(R.JobActive) && run.cancelRequestedAt.None? && Silent(run, cfg, now)))
        ==> obs.diagnostic.Some?)
  }

  /** The Job is over, or the operator puts an end to it. */
  predicate Over(run: Run, phase: R.Phase, cfg: Settings, now: Time) {
    phase == R.JobActive ==> if run.cancelRequestedAt.Some? then GraceOver(run, cfg, now) else Silent(run, cfg, now)
  }

  /** How a run has ended: with success exactly if its Job has, otherwise cancelled exactly if that was asked for. */
  predicate EndsAs(before: Run, after: Run, phase: R.Phase) {
    && (after.status == Success <==> phase == R.JobSucceeded)
    && (after.status == Cancelled <==> phase != R.JobSucceeded && before.cancelRequestedAt.Some?)
    && (after.status == Failed <==> phase != R.JobSucceeded && before.cancelRequestedAt.None?)
  }

  /** The code says what ended the run; a code that was there is kept unless the operator itself puts an end to it. */
  predicate EndsWithCode(before: Run, after: Run, phase: R.Phase) {
    match phase
    case JobSucceeded => after.finishCode == before.finishCode && after.finishMessage == before.finishMessage
    case JobActive =>
      after.finishCode == Some(if before.cancelRequestedAt.Some? then R.CODE_CANCELLED else R.CODE_STUCK)
    case _ =>
      if before.finishCode.Some? then
        after.finishCode == before.finishCode && after.finishMessage == before.finishMessage
      else if before.cancelRequestedAt.Some? then after.finishCode == Some(R.CODE_CANCELLED)
      else after.finishCode == Some(if phase == R.JobFailed then R.CODE_FAILED else R.CODE_MISSING)
  }

  predicate EndsAt(before: Run, after: Run, phase: R.Phase, now: Time) {
    after.finishedAt == if phase == R.JobActive || before.finishedAt.None? then Some(now) else before.finishedAt
  }

  /** Only the columns of its end differ. */
  predicate OnlyEnded(before: Run, after: Run) {
    after == before.(status := after.status, finishedAt := after.finishedAt, finishCode := after.finishCode,
                     finishMessage := after.finishMessage)
  }

  lemma {:induction false} LookAnswered(run: Run, obs: R.Observation, cfg: Settings, now: Time)
    ensures R.ReconcileRun(run, obs, cfg, now).Some? <==> Answers(run, obs, cfg, now)
  {
    hide R.StuckMessage;
  }

  lemma {:induction false} LookEnds(run: Run, obs: R.Observation, cfg: Settings, now: Time)
    requires Answers(run, obs, cfg, now) && !IsTerminal(run.status)
    ensures R.ReconcileRun(run, obs, cfg, now).Some?
    ensures var after := R.ReconcileRun(run, obs, cfg, now).value;
            if Over(run, obs.phase.value, cfg, now) then
              && EndsAs(run, after, obs.phase.value) && EndsWithCode(run, after, obs.phase.value)
              && EndsAt(run, after, obs.phase.value, now) && OnlyEnded(run, after)
            else after == run
  {
    hide R.StuckMessage;
    match obs.phase.value
    case JobSucceeded =>
    case JobFailed =>
    case JobMissing =>
    case JobActive => hide R.Lost;
  }

  /** A tick happens exactly if the cluster answers for every run that holds a Job; otherwise it changes nothing. */
  lemma {:induction false} TickAnswered(u: Setup, y: System, e: Event)
    requires Enabled(y, e) && e.ReconcileTick?
    ensures var answered := forall id | id in y.store.runs && IsActive(y.store.runs[id]) ::
                              Answers(y.store.runs[id], e.seen(id), u.cfg, y.clock);
            && (R.TickSucceeds(y.store.runs, e.seen, u.cfg, y.clock) <==> answered)
            && (!answered ==> StoreAfter(u, y, e) == y.store)
  {
    hide R.ReconcileRun, Answers;
    forall id | id in y.store.runs
      ensures R.ReconcileRun(y.store.runs[id], e.seen(id), u.cfg, y.clock).Some? <==>
              Answers(y.store.runs[id], e.seen(id), u.cfg, y.clock)
    {
      LookAnswered(y.store.runs[id], e.seen(id), u.cfg, y.clock);
    }
  }

  /**
   * How a complete tick ends a run that holds a Job. The run ends exactly if its Job is over, or is active past the
   * grace of a cancel or, without one, past the timeout: as a success exactly if the cluster says its Job succeeded,
   * and otherwise cancelled if that was asked for and failed if not, with the code that says so. Otherwise, and for a
   * run that holds no Job, the row stays as it was.
   */
  lemma {:induction false} TickOutcome(u: Setup, y: System, e: Event, id: Id)
    requires Enabled(y, e) && e.ReconcileTick? && id in y.store.runs
    requires forall other | other in y.store.runs && IsActive(y.store.runs[other]) ::
               Answers(y.store.runs[other], e.seen(other), u.cfg, y.clock)
    ensures id in StoreAfter(u, y, e).runs && (IsActive(y.store.runs[id]) ==> e.seen(id).phase.Some?)
    ensures var before, after, phase := y.store.runs[id], StoreAfter(u, y, e).runs[id], e.seen(id).phase;
            if IsActive(before) && Over(before, phase.value, u.cfg, y.clock) then
              && EndsAs(before, after, phase.value) && EndsWithCode(before, after, phase.value)
              && EndsAt(before, after, phase.value, y.clock) && OnlyEnded(before, after)
            else after == before
  {
    assert IsActive(y.store.runs[id]) ==> e.seen(id).phase.Some?;
    hide Answers, Over, EndsAs, EndsWithCode, EndsAt, OnlyEnded, R.ReconcileRun;
    TickAnswered(u, y, e);
    if IsActive(y.store.runs[id]) { LookEnds(y.store.runs[id], e.seen(id), u.cfg, y.clock); }
  }

  /** The runs a complete tick counts are those it ends. */
  lemma {:induction false} TickCounts(u: Setup, y: System, e: Event, id: Id)
    requires Enabled(y, e) && e.ReconcileTick? && id in y.store.runs
    requires forall other | other in y.store.runs && IsActive(y.store.runs[other]) ::
               Answers(y.store.runs[other], e.seen(other), u.cfg, y.clock)
    ensures id in StoreAfter(u, y, e).runs
    ensures id in R.Touched(y.store.runs, e.seen, u.cfg, y.clock) <==>
              IsActive(y.store.runs[id]) && !IsActive(StoreAfter(u, y, e).runs[id])
  {
    hide Answers, EndsWithCode, EndsAt, R.ReconcileRun;
    TickOutcome(u, y, e, id);
  }

  // ---------- cancelling

  /**
   * A cancel takes effect exactly on an unfinished run that nobody has cancelled yet: one that waits is over at once,
   * one with a Job goes on until a tick of the reconciler ends it.
   */
  lemma {:induction false} CancelOutcome(u: Setup, y: System, e: Event)
    requires Enabled(y, e) && e.CancelRun?
    ensures var s, t := y.store, StoreAfter(u, y, e);
            if e.id in s.runs && s.runs[e.id].status in {Queued, NotStarted, InProgress}
               && s.runs[e.id].cancelRequestedAt.None? then
              var before := s.runs[e.id];
              && e.id in t.runs && t == s.(runs := s.runs[e.id := t.runs[e.id]])
              && var after := t.runs[e.id];
                 && after == before.(cancelRequestedAt := Some(y.clock), status := after.status,
                                     finishedAt := after.finishedAt)
                 && (before.jobName.None? ==> after.status == Cancelled && after.finishedAt == Some(y.clock))
                 && (before.jobName.Some? ==> after.status == before.status && after.finishedAt == before.finishedAt)
            else t == s
  {
  }

  /** A run that is deleted is gone with what was stored for it, which is gone alone where the commit fails. */
  lemma {:induction false} DeleteOutcome(u: Setup, y: System, e: Event)
    requires Enabled(y, e) && e.DeleteRun?
    ensures var s, t := y.store, StoreAfter(u, y, e);
            var cleans := e.id in s.runs && e.ok;
            && t.schedules == s.schedules && t.profiles == s.profiles
            && t.inputs == (if cleans then s.inputs - {e.id} else s.inputs)
            && t.runs == (if cleans && e.committed then s.runs - {e.id} else s.runs)
  {
  }

  // ---------- what a Job delivers

  function StatusName(s: Status): string {
    match s
    case Queued => "QUEUED"
    case NotStarted => "NOT_STARTED"
    case InProgress => "IN_PROGRESS"
    case Success => "SUCCESS"
    case Failed => "FAILED"
    case Cancelled => "CANCELLED"
  }

  /** A text names a status exactly if it is its name with white space around it. */
  predicate Names(text: Option<string>, s: Status) {
    text.Some? && Lines.Strip(text.value, Lines.IsSpace) == StatusName(s)
  }

  lemma {:induction false} NamedStatus(text: Option<string>, s: Status)
    ensures Runs.ParseStatus(text) == Some(s) <==> Names(text, s)
  {
    hide Lines.Strip;
  }

  /**
   * A delivery sets the status it names, whatever the run's was, and leaves it where it names none. A run that is
   * then over has its finishing time from the delivery or from the clock. Name and start are taken once; nothing else
   * changes.
   */
  lemma {:induction false} DeliveryOutcome(u: Setup, y: System, e: Event)
    requires Enabled(y, e) && e.DeliverStatus? && e.id in y.store.runs
    ensures var s, t, report := y.store, StoreAfter(u, y, e), e.report;
            && e.id in t.runs && t == s.(runs := s.runs[e.id := t.runs[e.id]])
            && var before, after := s.runs[e.id], t.runs[e.id];
               && after.statusUpdatedAt == Some(y.clock)
               && (forall status | Names(report.status, status) :: after.status == status)
               && ((forall status :: !Names(report.status, status)) ==> after.status == before.status)
               && after.finishedAt == (if !IsTerminal(after.status) then before.finishedAt
                                       else if report.finishedAt.Some? then report.finishedAt else Some(y.clock))
               && after.startedAt == (if before.startedAt.Some? then before.startedAt else report.startedAt)
               && (before.name.Some? || Lines.Blank(report.name.GetOr("")) ==> after.name == before.name)
               && (before.name.None? && !Lines.Blank(report.name.GetOr("")) ==>
                     after.name == Some(Lines.Strip(report.name.GetOr(""), Lines.IsSpace)))
               && after == before.(statusUpdatedAt := after.statusUpdatedAt, status := after.status, name := after.name,
                                   startedAt := after.startedAt, finishedAt := after.finishedAt)
  {
    hide Lines.Strip, Lines.Blank, Runs.ParseStatus, Names;
    forall status ensures Runs.ParseStatus(e.report.status) == Some(status) <==> Names(e.report.status, status) {
      NamedStatus(e.report.status, status);
    }
    BlankStrips(e.report.name.GetOr(""));
    match Runs.ParseStatus(e.report.status)
    case None =>
    case Some(status) => assert Names(e.report.status, status);
  }

  lemma {:induction false} BlankStrips(s: string)
    ensures Lines.Blank(s) <==> Lines.Strip(s, Lines.IsSpace) == ""
  {
    var i, j := Lines.StripIsMiddle(s, Lines.IsSpace);
    assert i < j ==> s[i] in s;
    assert i == j ==> forall k | 0 <= k < |s| :: Lines.IsSpace(s[k]);
  }

  /** A report's finish code is not taken if it has none, or if the operator has set one of its own. */
  predicate KeepsCode(run: Run, code: Option<string>) {
    code.None? || (run.finishCode.Some? && "PDE-OPERATOR-" <= run.finishCode.value)
  }

  /** A report sets its time and the finish code it brings, and no other column. */
  lemma {:induction false} ReportOutcome(u: Setup, y: System, e: Event)
    requires Enabled(y, e) && e.DeliverReport?
    ensures var s, t := y.store, StoreAfter(u, y, e);
            if e.id in s.runs && e.ok then
              var before := s.runs[e.id];
              t == s.(runs := s.runs[e.id := before.(
                reportUpdatedAt := Some(y.clock),
                finishCode := if KeepsCode(before, e.code) then before.finishCode else e.code)])
            else t == s
  {
  }

  /** An upload sets the columns of the artifacts it brings, and a report in it counts as a report. */
  lemma {:induction false} UploadOutcome(u: Setup, y: System, e: Event)
    requires Enabled(y, e) && e.UploadArtifacts?
    ensures var s, t, up := y.store, StoreAfter(u, y, e), e.upload;
            var brings := up.state.Some? || up.report.Some? || up.log || up.debug;
            && (!(e.id in s.runs && brings && e.ok) ==> t == s)
            && (e.id in s.runs && brings && e.ok ==>
                  && e.id in t.runs && t == s.(runs := s.runs[e.id := t.runs[e.id]])
                  && var before, after := s.runs[e.id], t.runs[e.id];
                     && after.stateLocation == (if up.state.Some? then up.state else before.stateLocation)
                     && after.logUpdatedAt == (if up.log then Some(y.clock) else before.logUpdatedAt)
                     && after.reportUpdatedAt == (if up.report.Some? then Some(y.clock) else before.reportUpdatedAt)
                     && after.finishCode == (if up.report.None? || KeepsCode(before, up.report.value)
                                             then before.finishCode else up.report.value)
                     && after == before.(stateLocation := after.stateLocation, logUpdatedAt := after.logUpdatedAt,
                                         reportUpdatedAt := after.reportUpdatedAt, finishCode := after.finishCode))
  {
    if e.upload.report.Some? && e.id in y.store.runs {
      CodeKept(y.store.runs[e.id], e.upload.report.value);
    }
    hide Runs.IsOperatorCode, KeepsCode;
  }

  lemma {:induction false} CodeKept(run: Run, code: Option<string>)
    ensures Runs.ApplyReportCode(run, code) == run.(finishCode := if KeepsCode(run, code) then run.finishCode else code)
    ensures KeepsCode(run, code) <==> Runs.IsOperatorCode(run.finishCode) || code.None?
  {
  }

  // ---------- new runs

  /** The first of several images that says anything: one asked for, stripped, otherwise another. */
  predicate ImageOf(asked: Option<string>, fallback: string, image: string) {
    if Lines.Blank(asked.GetOr("")) then image == fallback
    else asked.Some? && image == Lines.Strip(asked.value, Lines.IsSpace)
  }

  /** Without a queue the Job is started at once, where Jobs are started at all, and no Job means no run. */
  predicate CanStart(cfg: Settings, world: World) {
    cfg.queueEnabled || !cfg.jobCreationEnabled || world.jobOk
  }

  /** A run as it is made: it waits for a Job, or has got it at once. */
  predicate Fresh(cfg: Settings, run: Run, id: Id, now: Time) {
    && run.createdAt == now && run.startedAt.None? && run.finishedAt.None? && run.cancelRequestedAt.None?
    && run.finishCode.None? && run.finishMessage.None? && run.name.None? && run.stateLocation.None?
    && run.reportUpdatedAt.None? && run.logUpdatedAt.None?
    && if cfg.queueEnabled || !cfg.jobCreationEnabled then
         run.status == Queued && run.jobName.None? && run.statusUpdatedAt.None?
       else run.status == NotStarted && run.jobName == Some(JobName(id)) && run.statusUpdatedAt == Some(now)
  }

  lemma {:induction false} ImageGiven(asked: Option<string>, fallback: string)
    ensures ImageOf(asked, fallback, GivenOr(asked, fallback))
  {
    hide Lines.Strip, Lines.Blank;
    BlankStrips(asked.GetOr(""));
    Lines.NothingIsBlank();
  }

  /** What making a run from a request does to the tables and what is stored. */
  predicate Makes(
    s: Store, t: Store, cfg: Settings, req: RunRequest, id: Id, trigger: Option<Id>, now: Time, world: World)
  {
    var stores := req.profileId in s.profiles && world.storageOk;
    && t.inputs == (if stores then s.inputs[id := Payload(req.pipeline, None)] else s.inputs)
    && t.schedules == s.schedules && t.profiles == s.profiles
    && if stores && CanStart(cfg, world) && world.committed then
         && id in t.runs && t.runs == s.runs[id := t.runs[id]]
         && var run := t.runs[id];
            && Fresh(cfg, run, id, now) && run.profileId == req.profileId && run.pipeline == Masked(req.pipeline)
            && run.envVars == req.envVars && run.templateId == req.templateId && run.triggeredBy == trigger
            && run.retryOf.None? && run.retryVars.None?
            && ImageOf(req.pdeImage, s.profiles[req.profileId], run.pdeImage)
       else t.runs == s.runs
  }

  lemma {:induction false} RequestMakes(
    s: Store, cfg: Settings, req: RunRequest, id: Id, trigger: Option<Id>, now: Time, world: World)
    ensures Makes(s, Runs.CreateRun(s, cfg, req, id, trigger, now, world).store, cfg, req, id, trigger, now, world)
    ensures Runs.CreateRun(s, cfg, req, id, trigger, now, world).Done? <==>
            req.profileId in s.profiles && world.storageOk && CanStart(cfg, world) && world.committed
  {
    hide GivenOr, Masked, JobName, ImageOf;
    if req.profileId in s.profiles { ImageGiven(req.pdeImage, s.profiles[req.profileId]); }
  }

  /**
   * A request makes a run exactly if its profile is there, its input is stored, the Job it may need at once is not
   * refused and the commit goes through; the input stays behind where one of the last two fails.
   */
  lemma {:induction false} CreateOutcome(u: Setup, y: System, e: Event)
    requires Enabled(y, e) && e.CreateRun?
    ensures Makes(y.store, StoreAfter(u, y, e), u.cfg, e.request, e.id, None, y.clock, e.world)
  {
    hide Makes, Runs.CreateRun;
    RequestMakes(y.store, u.cfg, e.request, e.id, None, y.clock, e.world);
  }

  /** A run that can be retried: it has failed or been cancelled, its state has been uploaded and is still there, its
      profile is there, and what was stored for it can be read. */
  predicate CanBeRetried(s: Store, parent: Id, stateOk: bool, readable: bool) {
    && parent in s.runs && (s.runs[parent].status == Failed || s.runs[parent].status == Cancelled)
    && s.runs[parent].stateLocation.Some? && s.runs[parent].stateLocation.value != "" && stateOk
    && s.runs[parent].profileId in s.profiles && parent in s.inputs && readable
  }

  /** What is asked for takes the place of what the run had. */
  predicate Overrides<T(==)>(asked: Option<T>, had: Option<T>, got: Option<T>) {
    got == if asked.Some? then asked else had
  }

  /**
   * A retry makes a run exactly if the other can be retried, its input is stored, the Job it may need at once is not
   * refused and the commit goes through. It runs what the other ran, from the same template and profile, with the
   * variables and environment asked for or else the other's, and in the image asked for, the other's or the profile's.
   */
  lemma {:induction false} RetryOutcome(u: Setup, y: System, e: Event)
    requires Enabled(y, e) && e.RetryRun?
    ensures var s, t := y.store, StoreAfter(u, y, e);
            var stores := CanBeRetried(s, e.parent, e.stateOk, e.world.readable) && e.world.storageOk;
            && t.schedules == s.schedules && t.profiles == s.profiles
            && (stores ==>
                  && e.id in t.inputs && t.inputs == s.inputs[e.id := t.inputs[e.id]]
                  && t.inputs[e.id].pipeline == s.inputs[e.parent].pipeline
                  && Overrides(e.retry.retryVars, s.runs[e.parent].retryVars, t.inputs[e.id].retryVars))
            && (!stores ==> t.inputs == s.inputs)
            && if stores && CanStart(u.cfg, e.world) && e.world.committed then
                 && e.id in t.runs && t.runs == s.runs[e.id := t.runs[e.id]]
                 && var run, parent := t.runs[e.id], s.runs[e.parent];
                    && Fresh(u.cfg, run, e.id, y.clock) && run.retryOf == Some(e.parent) && run.triggeredBy.None?
                    && run.profileId == parent.profileId && run.templateId == parent.templateId
                    && run.pipeline == parent.pipeline
                    && Overrides(e.retry.retryVars, parent.retryVars, run.retryVars)
                    && Overrides(e.retry.envVars, parent.envVars, run.envVars)
                    && ImageOf(e.retry.pdeImage, if parent.pdeImage != "" then parent.pdeImage
                                                 else s.profiles[parent.profileId], run.pdeImage)
               else t.runs == s.runs
  {
    hide GivenOr, JobName, ImageOf;
    var s := y.store;
    if e.parent in s.runs && s.runs[e.parent].profileId in s.profiles {
      var parent := s.runs[e.parent];
      ImageGiven(e.retry.pdeImage, if parent.pdeImage != "" then parent.pdeImage else s.profiles[parent.profileId]);
    }
  }
}
