/** Rows show the masked form of the input stored for them, and what a run carries never changes. */
module Agreement {
  import opened Effects
  import opened Lifecycle
  import opened Operator
  import opened Options
  import opened Records
  import D = Dispatcher
  import Queue
  import Reconciler
  import Runs
  import Schedules
  import Secrets

  predicate RunAgrees(run: Run, input: Payload) {
    run.pipeline == Masked(input.pipeline) && run.retryVars == input.retryVars
  }

  predicate ScheduleAgrees(row: Schedule, input: Payload) {
    row.pipeline == Masked(input.pipeline) && input.retryVars.None?
  }

  /** What is stored for a run is what its row shows. */
  predicate RunsAgree(s: Store) {
    forall id | id in s.runs && id in s.inputs :: RunAgrees(s.runs[id], s.inputs[id])
  }

  predicate SchedulesAgree(s: Store) {
    forall id | id in s.schedules && id in s.inputs :: ScheduleAgrees(s.schedules[id], s.inputs[id])
  }

  /** Something is stored for every row. */
  predicate AllStored(s: Store) {
    s.runs.Keys + s.schedules.Keys <= s.inputs.Keys
  }

  // ---------- making runs

  /** What a retry takes over from the run it retries. */
  predicate Retries(s: Store, run: Run, input: Payload)
    requires run.retryOf.Some?
  {
    var parent := run.retryOf.value;
    && parent in s.runs && parent in s.inputs && input.pipeline == s.inputs[parent].pipeline
    && run.profileId == s.runs[parent].profileId && run.templateId == s.runs[parent].templateId
  }

  /** A new run comes with its own input, agreeing with its row and with that of the run it retries. */
  predicate AddsInput(s: Store, t: Store, id: Id) {
    || (t.inputs == s.inputs && t.runs == s.runs)
    || (&& id in t.inputs && t.inputs == s.inputs[id := t.inputs[id]]
        && (|| t.runs == s.runs
            || (&& id in t.runs && t.runs == s.runs[id := t.runs[id]] && RunAgrees(t.runs[id], t.inputs[id])
                && (t.runs[id].retryOf.Some? ==> Retries(s, t.runs[id], t.inputs[id])))))
  }

  lemma {:induction false} CreateRunInput(
    s: Store, cfg: Settings, req: RunRequest, id: Id, trigger: Option<Id>, now: Time, world: World)
    ensures var r := Runs.CreateRun(s, cfg, req, id, trigger, now, world);
            && AddsInput(s, r.store, id)
            && (r.Done? ==> id in r.store.inputs && r.store.inputs[id] == Payload(req.pipeline, None))
  {
    hide JobName, Masked, GivenOr;
  }

  lemma {:induction false} RetryInput(
    s: Store, cfg: Settings, parent: Id, req: Runs.RetryRequest, id: Id, now: Time, stateOk: bool, world: World)
    requires RunsAgree(s)
    ensures var r := Runs.Retry(s, cfg, parent, req, id, now, stateOk, world);
            && AddsInput(s, r.store, id)
            && (r.Done? ==>
                  && id in r.store.inputs && id in r.store.runs && parent in s.inputs
                  && r.store.inputs[id] == s.inputs[parent].(retryVars := r.store.runs[id].retryVars))
  {
    hide JobName, Masked, GivenOr;
  }

  /** A fired run carries exactly the pipeline stored for its schedule at that moment. */
  lemma {:induction false} FireInput(s: Store, cfg: Settings, id: Id, runId: Id, now: Time, world: World)
    requires id in s.schedules
    ensures var r := Schedules.Fire(s, cfg, id, runId, now, world);
            && AddsInput(s, r.store, runId)
            && (r.Done? ==>
                  && id in s.inputs && runId in r.store.inputs
                  && r.store.inputs[runId] == Payload(s.inputs[id].pipeline, None))
  {
    if id in s.inputs {
      var row := s.schedules[id];
      var req := RunRequest(row.profileId, s.inputs[id].pipeline, row.envVars, row.pdeImage, row.templateId);
      CreateRunInput(s, cfg, req, runId, Some(id), now, world);
    }
  }

  lemma {:induction false} MadeRunInput(u: Setup, y: System, e: Event)
    requires Enabled(y, e) && MakesRun(e) && RunsAgree(y.store)
    ensures AddsInput(y.store, StoreAfter(u, y, e), e.id)
  {
    hide AddsInput, RunsAgree, Runs.CreateRun, Runs.Retry, Schedules.Fire, Schedules.ApplyFireResult;
    var s, now := y.store, y.clock;
    match e
    case CreateRun(request, id, world) => CreateRunInput(s, u.cfg, request, id, None, now, world);
    case RetryRun(parent, retry, id, stateOk, world) => RetryInput(s, u.cfg, parent, retry, id, now, stateOk, world);
    case TriggerNow(schedule, id, world, _) => FiredRunInput(u, y, e, schedule);
    case FireClaim(claim, id, world, _) => FiredRunInput(u, y, e, y.claims[claim].schedule);
  }

  lemma {:induction false} FiredRunInput(u: Setup, y: System, e: Event, schedule: Id)
    requires Enabled(y, e)
    requires (e.TriggerNow? && schedule == e.schedule)
          || (e.FireClaim? && schedule == y.claims[e.claim].schedule)
    ensures AddsInput(y.store, StoreAfter(u, y, e), e.id)
  {
    hide AddsInput, Schedules.Fire, Schedules.ApplyFireResult;
    var s := y.store;
    if schedule in s.schedules {
      FireInput(s, u.cfg, schedule, e.id, y.clock, e.world);
      SameInput(s, Schedules.Fire(s, u.cfg, schedule, e.id, y.clock, e.world).store, StoreAfter(u, y, e), e.id);
    } else {
      NothingAdds(s, StoreAfter(u, y, e), e.id);
    }
  }

  lemma {:induction false} NothingAdds(s: Store, t: Store, id: Id)
    requires t.runs == s.runs && t.inputs == s.inputs
    ensures AddsInput(s, t, id)
  {
  }

  lemma {:induction false} SameInput(s: Store, t: Store, r: Store, id: Id)
    requires AddsInput(s, t, id) && r.runs == t.runs && r.inputs == t.inputs
    ensures AddsInput(s, r, id)
  {
  }

  // ---------- one step

  /** Rows that stay keep the columns they were made with. */
  predicate RowsKept(s: Store, t: Store) {
    && (forall id | id in s.runs && id in t.runs :: SameOrigin(s.runs[id], t.runs[id]))
    && (forall id | id in s.schedules && id in t.schedules :: s.schedules[id].pipeline == t.schedules[id].pipeline)
  }

  /** Nothing is stored anew. */
  predicate InputsShrink(s: Store, t: Store) {
    forall id | id in t.inputs :: id in s.inputs && t.inputs[id] == s.inputs[id]
  }

  /** A deletion whose commit fails: what was stored for the row is gone, the row is not. */
  predicate Interrupted(e: Event) {
    (e.DeleteRun? || e.DeleteSchedule?) && e.ok && !e.committed
  }

  predicate LosesInput(y: System, e: Event, id: Id) {
    Interrupted(e) && e.id == id && if e.DeleteRun? then id in y.store.runs else id in y.store.schedules
  }

  /** What is stored for the rows that stay is kept, but for a row whose deletion is interrupted. */
  predicate InputsStay(y: System, e: Event, t: Store) {
    forall id | id in y.store.inputs && (id in t.runs || id in t.schedules) ::
      id in t.inputs <==> !LosesInput(y, e, id)
  }

  lemma {:induction false} ScheduleColumnsKept(u: Setup, y: System, e: Event, id: Id)
    requires Enabled(y, e) && id in y.store.schedules && !e.UpdateSchedule?
    ensures ScheduleAfter(u, y, e, id).pipeline == y.store.schedules[id].pipeline
  {
    hide D.Batch, D.IsBusy, D.Decide, Schedules.Fire;
  }

  lemma {:induction false} StepKeepsRows(u: Setup, y: System, e: Event)
    requires Sound(y) && AllSane(y.store.runs) && Enabled(y, e) && !e.UpdateSchedule?
    ensures RowsKept(y.store, StoreAfter(u, y, e))
  {
    hide StoreAfter, RunAfter, ScheduleAfter, IsNew, SameOrigin;
    RunsOfStep(u, y, e);
    SchedulesOfStep(u, y, e);
    forall id | id in y.store.runs ensures SameOrigin(y.store.runs[id], RunAfter(u, y, e, id)) {
      RunKeeps(u, y, e, id);
    }
    forall id | id in y.store.schedules
      ensures ScheduleAfter(u, y, e, id).pipeline == y.store.schedules[id].pipeline
    {
      ScheduleColumnsKept(u, y, e, id);
    }
  }

  lemma {:induction false} KeptRuns(s: Store, t: Store)
    requires RunsAgree(s) && RowsKept(s, t) && InputsShrink(s, t) && t.runs.Keys <= s.runs.Keys
    ensures RunsAgree(t)
  {
    hide Masked;
  }

  lemma {:induction false} KeptSchedules(s: Store, t: Store)
    requires SchedulesAgree(s) && RowsKept(s, t) && InputsShrink(s, t) && t.schedules.Keys <= s.schedules.Keys
    ensures SchedulesAgree(t)
  {
    hide Masked;
  }

  lemma {:induction false} AddedRun(s: Store, t: Store, id: Id)
    requires RunsAgree(s) && RowsKept(s, t) && AddsInput(s, t, id) && id !in s.runs
    ensures RunsAgree(t)
  {
    hide Masked, Retries;
  }

  lemma {:induction false} AddedBesideSchedules(s: Store, t: Store, id: Id)
    requires SchedulesAgree(s) && RowsKept(s, t) && AddsInput(s, t, id)
    requires id !in s.schedules && t.schedules.Keys <= s.schedules.Keys
    ensures SchedulesAgree(t)
  {
    hide Masked;
  }

  predicate StoresInput(e: Event) {
    MakesRun(e) || e.CreateSchedule? || e.UpdateSchedule?
  }

  predicate Deletes(e: Event) {
    e.DeleteRun? || e.DeleteSchedule? || e.DeleteAllSchedules?
  }

  lemma {:induction false} InputsDeleted(u: Setup, y: System, e: Event)
    requires Sound(y) && Enabled(y, e) && Deletes(e)
    ensures var t := StoreAfter(u, y, e);
            && InputsShrink(y.store, t) && InputsStay(y, e, t)
            && t.runs.Keys <= y.store.runs.Keys && t.schedules.Keys <= y.store.schedules.Keys
  {
  }

  lemma {:induction false} InputsUntouched(u: Setup, y: System, e: Event)
    requires Enabled(y, e) && !StoresInput(e) && !Deletes(e)
    ensures var t := StoreAfter(u, y, e);
            && t.inputs == y.store.inputs
            && t.runs.Keys == y.store.runs.Keys && t.schedules.Keys == y.store.schedules.Keys
  {
    hide D.ClaimRow, D.Batch, D.IsBusy, D.ToFire, Queue.Batch, Queue.AdmitRun, Reconciler.ReconcileRun, Firing,
         Runs.ApplyStatus, Runs.ApplyUpload, Runs.ApplyReportCode, Runs.CreateRun, Runs.Retry, Runs.Delete,
         Schedules.Create, Schedules.Update, Schedules.TriggerNow, Schedules.DeleteAll, Schedules.Delete,
         Runs.Cancel, Schedules.SetEnabled;
    if e.CancelRun? { CancelledInput(y.store, e.id, y.clock); }
    if e.SetEnabled? { SwitchedInput(y.store, u.cal, e.id, e.enabled, y.clock); }
  }

  lemma {:induction false} CancelledInput(s: Store, id: Id, now: Time)
    ensures var t := Runs.Cancel(s, id, now).store;
            t.inputs == s.inputs && t.runs.Keys == s.runs.Keys && t.schedules == s.schedules
  {
  }

  lemma {:induction false} SwitchedInput(s: Store, cal: Schedules.Calendar, id: Id, enabled: bool, now: Time)
    ensures var t := Schedules.SetEnabled(s, cal, id, enabled, now).store;
            t.inputs == s.inputs && t.runs == s.runs && t.schedules.Keys == s.schedules.Keys
  {
  }

  /** A store whose schedules and inputs differ from another in one row and its input at most. */
  predicate OneSchedule(s: Store, t: Store, id: Id) {
    && t.runs == s.runs && (t.inputs == s.inputs || (id in t.inputs && t.inputs == s.inputs[id := t.inputs[id]]))
    && (t.schedules == s.schedules || (id in t.schedules && t.schedules == s.schedules[id := t.schedules[id]]))
  }

  lemma {:induction false} OneScheduleRuns(s: Store, t: Store, id: Id)
    requires RunsAgree(s) && OneSchedule(s, t, id) && id !in s.runs
    ensures RunsAgree(t)
  {
    hide Masked;
  }

  lemma {:induction false} OneScheduleAgrees(s: Store, t: Store, id: Id)
    requires SchedulesAgree(s) && OneSchedule(s, t, id)
    ensures SchedulesAgree(t) <==>
            (id in t.schedules && id in t.inputs ==> ScheduleAgrees(t.schedules[id], t.inputs[id]))
  {
    hide Masked;
  }

  lemma {:induction false} CreatedScheduleInput(
    s: Store, cfg: Settings, cal: Schedules.Calendar, req: Schedules.ScheduleRequest, id: Id, now: Time, world: World)
    requires id !in s.schedules
    ensures var t := Schedules.Create(s, cfg, cal, req, id, now, world).store;
            && OneSchedule(s, t, id)
            && (id in t.schedules ==> id in t.inputs && ScheduleAgrees(t.schedules[id], t.inputs[id]))
  {
    hide Masked, GivenOr, Secrets.Merge, Schedules.Accepted;
  }

  // ---------- updating a schedule

  /** An update that is accepted and whose input is stored. */
  predicate Stores(u: Setup, y: System, e: Event) {
    && e.UpdateSchedule? && e.world.storageOk && e.world.readable
    && e.id in y.store.schedules && e.id in y.store.inputs
    && Schedules.Accepted(u.cal, u.cfg, e.definition.cron, y.clock) && e.definition.run.profileId in y.store.profiles
    && Schedules.Resolved(y.store, e.id, e.definition).Some?
  }

  /** It then needs a new anchor and gets none. */
  predicate AnchorLost(u: Setup, y: System, e: Event) {
    && Stores(u, y, e)
    && Schedules.ReAnchors(y.store.schedules[e.id], e.definition) && u.cal.next(e.definition.cron, y.clock).None?
  }

  /**
   * The guard of the two branches that leave the row behind its input: the new input is stored, and then there is no
   * anchor or the commit fails, so that the row is left as it was.
   */
  predicate RowBehind(u: Setup, y: System, e: Event) {
    Stores(u, y, e) && (AnchorLost(u, y, e) || !e.world.committed)
  }

  /** Whether the request would show the same pipeline columns as the row has. */
  predicate ShowsSame(y: System, e: Event)
    requires e.UpdateSchedule? && e.id in y.store.schedules && e.id in y.store.inputs
    requires Schedules.Resolved(y.store, e.id, e.definition).Some?
  {
    Masked(Schedules.Resolved(y.store, e.id, e.definition).value) == y.store.schedules[e.id].pipeline
  }

  /** The row is left behind, and was going to change a column it shows. */
  predicate Breaks(u: Setup, y: System, e: Event) {
    RowBehind(u, y, e) && !ShowsSame(y, e)
  }

  lemma {:induction false} UpdatedScheduleInput(u: Setup, y: System, e: Event)
    requires e.UpdateSchedule?
    ensures var t := Schedules.Update(y.store, u.cfg, u.cal, e.id, e.definition, y.clock, e.world).store;
            OneSchedule(y.store, t, e.id) && t.runs == y.store.runs && t.schedules.Keys == y.store.schedules.Keys
  {
    hide Schedules.UpdatedRow, Schedules.Resolved, Schedules.Accepted;
  }

  lemma {:induction false} UpdatedScheduleAgrees(u: Setup, y: System, e: Event)
    requires e.UpdateSchedule? && SchedulesAgree(y.store) && e.id in y.store.schedules
    ensures var t := Schedules.Update(y.store, u.cfg, u.cal, e.id, e.definition, y.clock, e.world).store;
            && e.id in t.schedules
            && ((e.id in t.inputs ==> ScheduleAgrees(t.schedules[e.id], t.inputs[e.id])) <==> !Breaks(u, y, e))
  {
    hide Schedules.Resolved, Masked, Schedules.Accepted;
  }

  /** An update keeps the agreement unless it leaves its row behind and was going to change a column. */
  lemma {:induction false} UpdateAgrees(u: Setup, y: System, e: Event)
    requires Enabled(y, e) && e.UpdateSchedule? && SchedulesAgree(y.store)
    ensures SchedulesAgree(StoreAfter(u, y, e)) <==> !RowBehind(u, y, e) || ShowsSame(y, e)
  {
    hide Schedules.Update, RowBehind, ShowsSame, SchedulesAgree, OneSchedule;
    if e.id in y.store.schedules {
      UpdatedScheduleInput(u, y, e);
      UpdatedScheduleAgrees(u, y, e);
      OneScheduleAgrees(y.store, StoreAfter(u, y, e), e.id);
    } else {
      MissingUpdated(u, y, e);
    }
  }

  lemma {:induction false} MissingUpdated(u: Setup, y: System, e: Event)
    requires Enabled(y, e) && e.UpdateSchedule? && e.id !in y.store.schedules
    ensures StoreAfter(u, y, e) == y.store
    ensures !RowBehind(u, y, e)
  {
  }

  // ---------- every sequence of events

  predicate EditsOne(e: Event) {
    e.CreateSchedule? || e.UpdateSchedule?
  }

  /** Every event adds the input of one run, sets that of one schedule, or stores nothing anew. */
  lemma {:induction false} InputsOfStep(u: Setup, y: System, e: Event)
    requires Sound(y) && Enabled(y, e) && RunsAgree(y.store)
    ensures var s, t := y.store, StoreAfter(u, y, e);
            && (MakesRun(e) ==> AddsInput(s, t, e.id))
            && (EditsOne(e) ==> t == s || (e.id !in s.runs && OneSchedule(s, t, e.id)))
            && (!MakesRun(e) && !EditsOne(e) ==>
                  InputsShrink(s, t) && t.runs.Keys <= s.runs.Keys && t.schedules.Keys <= s.schedules.Keys)
            && InputsStay(y, e, t)
  {
    hide StoreAfter, InputsShrink, InputsStay, AddsInput, OneSchedule, RunsAgree;
    if MakesRun(e) {
      MadeRunInput(u, y, e);
      AddedInputsStay(y, e, StoreAfter(u, y, e));
    } else if EditsOne(e) {
      EditedScheduleInput(u, y, e);
      EditedInputsStay(y, e, StoreAfter(u, y, e));
    } else if Deletes(e) {
      InputsDeleted(u, y, e);
    } else {
      InputsUntouched(u, y, e);
      SameInputsStay(y, e, StoreAfter(u, y, e));
    }
  }

  lemma {:induction false} AddedInputsStay(y: System, e: Event, t: Store)
    requires MakesRun(e) && AddsInput(y.store, t, e.id)
    ensures InputsStay(y, e, t)
  {
    hide RunAgrees, Retries;
  }

  lemma {:induction false} EditedInputsStay(y: System, e: Event, t: Store)
    requires EditsOne(e) && (t == y.store || OneSchedule(y.store, t, e.id))
    ensures InputsStay(y, e, t)
  {
  }

  lemma {:induction false} SameInputsStay(y: System, e: Event, t: Store)
    requires !Interrupted(e) && t.inputs == y.store.inputs
    ensures InputsShrink(y.store, t) && InputsStay(y, e, t)
  {
  }

  lemma {:induction false} EditedScheduleInput(u: Setup, y: System, e: Event)
    requires Sound(y) && Enabled(y, e) && EditsOne(e)
    ensures var s, t := y.store, StoreAfter(u, y, e); t == s || (e.id !in s.runs && OneSchedule(s, t, e.id))
  {
    hide OneSchedule, Schedules.Create, Schedules.Update;
    if e.CreateSchedule? {
      CreatedScheduleInput(y.store, u.cfg, u.cal, e.definition, e.id, y.clock, e.world);
    } else {
      UpdatedScheduleInput(u, y, e);
      if e.id !in y.store.schedules { MissingUpdated(u, y, e); }
    }
  }

  lemma {:induction false} StepRunsAgree(u: Setup, y: System, e: Event)
    requires Sound(y) && AllSane(y.store.runs) && Enabled(y, e) && RunsAgree(y.store)
    ensures RunsAgree(StoreAfter(u, y, e))
  {
    hide StoreAfter, RowsKept, InputsShrink, InputsStay, AddsInput, RunsAgree, OneSchedule, AllSane;
    var s, t := y.store, StoreAfter(u, y, e);
    InputsOfStep(u, y, e);
    if EditsOne(e) {
      if t != s { OneScheduleRuns(s, t, e.id); }
    } else {
      StepKeepsRows(u, y, e);
      if MakesRun(e) { AddedRun(s, t, e.id); } else { KeptRuns(s, t); }
    }
  }

  /** One event keeps the agreement of the schedules exactly if it breaks no row's. */
  lemma {:induction false} StepSchedulesAgree(u: Setup, y: System, e: Event)
    requires Sound(y) && AllSane(y.store.runs) && Enabled(y, e) && RunsAgree(y.store) && SchedulesAgree(y.store)
    ensures SchedulesAgree(StoreAfter(u, y, e)) <==> !Breaks(u, y, e)
  {
    hide StoreAfter, RowsKept, InputsShrink, InputsStay, AddsInput, RunsAgree, SchedulesAgree, AllSane, AnchorLost,
         ShowsSame, ScheduleAfter, OneSchedule;
    var s, t := y.store, StoreAfter(u, y, e);
    if e.UpdateSchedule? {
      UpdateAgrees(u, y, e);
    } else if e.CreateSchedule? {
      CreateAgrees(u, y, e);
    } else {
      InputsOfStep(u, y, e);
      StepKeepsRows(u, y, e);
      SchedulesOfStep(u, y, e);
      if MakesRun(e) { AddedBesideSchedules(s, t, e.id); } else { KeptSchedules(s, t); }
    }
  }

  /** One event leaves something stored for every row exactly if it interrupts no deletion. */
  lemma {:induction false} StepStored(u: Setup, y: System, e: Event)
    requires Sound(y) && Enabled(y, e) && RunsAgree(y.store) && AllStored(y.store)
    ensures AllStored(StoreAfter(u, y, e)) <==> forall id :: !LosesInput(y, e, id)
  {
    hide StoreAfter, AddsInput, OneSchedule, InputsShrink, RunsAgree;
    InputsOfStep(u, y, e);
    if Interrupted(e) {
      InterruptedKeepsRow(u, y, e);
    } else {
      NewRowsStored(u, y, e);
    }
  }

  lemma {:induction false} InterruptedKeepsRow(u: Setup, y: System, e: Event)
    requires Enabled(y, e) && Interrupted(e)
    ensures var t := StoreAfter(u, y, e); t.runs == y.store.runs && t.schedules == y.store.schedules
  {
    hide Firing, D.ClaimDue, Schedules.Create, Schedules.Update, Schedules.TriggerNow, Runs.CreateRun, Runs.Retry;
  }

  lemma {:induction false} NewRowsStored(u: Setup, y: System, e: Event)
    requires Sound(y) && Enabled(y, e) && RunsAgree(y.store)
    ensures var t := StoreAfter(u, y, e);
            && (forall id | id in t.runs && id !in y.store.runs :: id in t.inputs)
            && (forall id | id in t.schedules && id !in y.store.schedules :: id in t.inputs)
  {
    hide StoreAfter, OneSchedule, RunsAgree, RunAgrees, Retries, InputsShrink, InputsStay, Schedules.Create, RunAfter,
         ScheduleAfter, IsNew;
    InputsOfStep(u, y, e);
    RunsOfStep(u, y, e);
    SchedulesOfStep(u, y, e);
    if e.CreateSchedule? { CreatedIsStored(u, y, e); }
  }

  lemma {:induction false} CreatedIsStored(u: Setup, y: System, e: Event)
    requires Enabled(y, e) && e.CreateSchedule?
    ensures var t := StoreAfter(u, y, e); e.id in t.schedules ==> e.id in t.inputs
  {
    hide Schedules.Create;
    CreatedScheduleInput(y.store, u.cfg, u.cal, e.definition, e.id, y.clock, e.world);
  }

  lemma {:induction false} CreateAgrees(u: Setup, y: System, e: Event)
    requires Enabled(y, e) && e.CreateSchedule? && SchedulesAgree(y.store)
    ensures SchedulesAgree(StoreAfter(u, y, e))
  {
    hide Schedules.Create, SchedulesAgree;
    CreatedScheduleInput(y.store, u.cfg, u.cal, e.definition, e.id, y.clock, e.world);
    OneScheduleAgrees(y.store, StoreAfter(u, y, e), e.id);
  }

  /** Whether some update among the events breaks the agreement of its row. */
  predicate BreaksSome(u: Setup, y: System, events: seq<Event>)
    requires Possible(u, y, events)
    decreases |events|
  {
    events != [] &&
    (var n := |events| - 1;
     BreaksSome(u, y, events[..n]) || Breaks(u, After(u, y, events[..n]), events[n]))
  }

  /** At every point of a sequence of events what is stored for a schedule is what its row shows. */
  predicate AlwaysAgree(u: Setup, y: System, events: seq<Event>)
    requires Possible(u, y, events)
    decreases |events|
  {
    SchedulesAgree(After(u, y, events).store) && (events == [] || AlwaysAgree(u, y, events[..|events| - 1]))
  }

  /** In every reachable state what is stored for a run is what its row shows. */
  lemma {:induction false} RunsAlwaysAgree(u: Setup, y: System, events: seq<Event>)
    requires Sound(y) && AllSane(y.store.runs) && RunsAgree(y.store) && Possible(u, y, events)
    ensures RunsAgree(After(u, y, events).store)
    decreases |events|
  {
    hide Sound, AllSane, RunsAgree, StoreAfter, Enabled;
    if events != [] {
      var n := |events| - 1;
      AfterSound(u, y, events[..n]);
      AlwaysSane(u, y, events[..n]);
      RunsAlwaysAgree(u, y, events[..n]);
      StepRunsAgree(u, After(u, y, events[..n]), events[n]);
    }
  }

  /** The schedules agree at every point exactly if no update on the way breaks the agreement of its row. */
  lemma {:induction false} SchedulesAlwaysAgree(u: Setup, y: System, events: seq<Event>)
    requires Sound(y) && AllSane(y.store.runs) && RunsAgree(y.store) && SchedulesAgree(y.store)
    requires Possible(u, y, events)
    ensures AlwaysAgree(u, y, events) <==> !BreaksSome(u, y, events)
    decreases |events|
  {
    hide Sound, AllSane, RunsAgree, SchedulesAgree, Breaks, StoreAfter, Enabled;
    if events != [] {
      var n := |events| - 1;
      var z := After(u, y, events[..n]);
      LastStep(u, y, events);
      AfterSound(u, y, events[..n]);
      AlwaysSane(u, y, events[..n]);
      RunsAlwaysAgree(u, y, events[..n]);
      SchedulesAlwaysAgree(u, y, events[..n]);
      if AlwaysAgree(u, y, events[..n]) { StepSchedulesAgree(u, z, events[n]); }
    }
  }

  /** Where no deletion is interrupted, something is stored for every row in every reachable state. */
  lemma {:induction false} InputsAlwaysStored(u: Setup, y: System, events: seq<Event>)
    requires Sound(y) && AllSane(y.store.runs) && RunsAgree(y.store) && AllStored(y.store) && Possible(u, y, events)
    requires forall e | e in events :: !Interrupted(e)
    ensures AllStored(After(u, y, events).store)
    decreases |events|
  {
    hide Sound, AllSane, RunsAgree, AllStored, StoreAfter, Enabled;
    if events != [] {
      var n := |events| - 1;
      LastStep(u, y, events);
      AfterSound(u, y, events[..n]);
      RunsAlwaysAgree(u, y, events[..n]);
      InputsAlwaysStored(u, y, events[..n]);
      StepStored(u, After(u, y, events[..n]), events[n]);
    }
  }

  // ---------- what sampling an expression rules out

  /** What the library takes and finds to occur without its zone also occurs with it. */
  ghost predicate ZonesAgree(cal: Schedules.Calendar) {
    forall c: Cron, t: Time :: cal.accepts(c) && cal.next(Schedules.Unzoned(c), t).Some? ==> cal.next(c, t).Some?
  }

  /**
   * With an interval set, an accepted expression has been found to occur; its anchor can then only be lost if the
   * library takes it, finds occurrences without the zone of the schedule and none with it.
   */
  lemma {:induction false} SamplingKeepsAnchor(u: Setup, y: System, e: Event)
    requires AnchorLost(u, y, e) && u.cfg.minInterval > 0
    ensures e.UpdateSchedule?
    ensures var c := e.definition.cron;
            && u.cal.accepts(c) && c.timezone != "UTC"
            && u.cal.next(Schedules.Unzoned(c), y.clock).Some? && u.cal.next(c, y.clock).None?
  {
    hide Schedules.Resolved, Schedules.Spread;
  }

  /** With an interval set, an update leaves its row behind exactly if it is stored and its commit fails. */
  lemma {:induction false} OnlyCommitsFail(u: Setup, y: System, e: Event)
    requires u.cfg.minInterval > 0 && ZonesAgree(u.cal)
    ensures RowBehind(u, y, e) <==> Stores(u, y, e) && !e.world.committed
    ensures RowBehind(u, y, e) ==> e.UpdateSchedule?
  {
    hide Schedules.Accepted, Schedules.Resolved;
    assert forall c: Cron | u.cal.accepts(c) && u.cal.next(Schedules.Unzoned(c), y.clock).Some? ::
             u.cal.next(c, y.clock).Some?;
    if AnchorLost(u, y, e) { SamplingKeepsAnchor(u, y, e); }
  }

  predicate UpdatesCommitted(events: seq<Event>) {
    forall i | 0 <= i < |events| && events[i].UpdateSchedule? :: events[i].world.committed
  }

  lemma {:induction false} CommittedBreakNone(u: Setup, y: System, events: seq<Event>)
    requires Possible(u, y, events) && u.cfg.minInterval > 0 && ZonesAgree(u.cal)
    requires UpdatesCommitted(events)
    ensures !BreaksSome(u, y, events)
    decreases |events|
  {
    hide Step, Enabled, Stores, AnchorLost, RowBehind, ShowsSame;
    if events != [] {
      var n := |events| - 1;
      CommittedBreakNone(u, y, events[..n]);
      OnlyCommitsFail(u, After(u, y, events[..n]), events[n]);
    }
  }

  /**
   * With an interval set, as it is by default, and all updates committed, what is stored for a schedule is what its row
   * shows at every point of any sequence of events.
   */
  lemma {:induction false} IntervalKeepsAgreement(u: Setup, y: System, events: seq<Event>)
    requires Sound(y) && AllSane(y.store.runs) && RunsAgree(y.store) && SchedulesAgree(y.store)
    requires Possible(u, y, events) && u.cfg.minInterval > 0 && ZonesAgree(u.cal)
    requires UpdatesCommitted(events)
    ensures AlwaysAgree(u, y, events)
  {
    hide Sound, AllSane, RunsAgree, SchedulesAgree, Possible, After, ZonesAgree, BreaksSome, AlwaysAgree;
    CommittedBreakNone(u, y, events);
    SchedulesAlwaysAgree(u, y, events);
  }

  // ---------- what is stored for a run

  lemma {:induction false} InputFixedByStep(u: Setup, y: System, e: Event, id: Id)
    requires Sound(y) && Enabled(y, e) && RunsAgree(y.store) && id in y.store.runs && id in StoreAfter(u, y, e).runs
    ensures var t := StoreAfter(u, y, e);
            && (id in t.inputs <==> id in y.store.inputs && e != DeleteRun(id, true, false))
            && (id in t.inputs ==> t.inputs[id] == y.store.inputs[id])
  {
    hide StoreAfter, AddsInput, OneSchedule, InputsShrink, RunAgrees;
    InputsOfStep(u, y, e);
    assert MakesRun(e) ==> e.id != id;
    assert LosesInput(y, e, id) <==> e == DeleteRun(id, true, false);
    hide Enabled, Sound, LosesInput;
    var s, t := y.store, StoreAfter(u, y, e);
    if MakesRun(e) {
      AddedElsewhere(s, t, e.id, id);
    } else if EditsOne(e) {
      if t != s { SetElsewhere(s, t, e.id, id); }
    } else {
      if id in t.inputs { ShrunkInput(s, t, id); }
    }
  }

  lemma {:induction false} AddedElsewhere(s: Store, t: Store, added: Id, id: Id)
    requires AddsInput(s, t, added) && id != added
    ensures id in t.inputs <==> id in s.inputs
    ensures id in t.inputs ==> t.inputs[id] == s.inputs[id]
  {
    hide RunAgrees, Retries;
  }

  lemma {:induction false} SetElsewhere(s: Store, t: Store, edited: Id, id: Id)
    requires OneSchedule(s, t, edited) && id != edited
    ensures id in t.inputs <==> id in s.inputs
    ensures id in t.inputs ==> t.inputs[id] == s.inputs[id]
  {
  }

  lemma {:induction false} ShrunkInput(s: Store, t: Store, id: Id)
    requires InputsShrink(s, t) && id in t.inputs
    ensures id in s.inputs && t.inputs[id] == s.inputs[id]
  {
  }

  /**
   * What is stored for a run never changes while the run is there, and is only ever lost to a deletion of the run that
   * is interrupted.
   */
  lemma {:induction false} InputFixed(u: Setup, y: System, events: seq<Event>, id: Id)
    requires Sound(y) && AllSane(y.store.runs) && RunsAgree(y.store) && Possible(u, y, events)
    requires id in y.store.runs && id in After(u, y, events).store.runs
    ensures var z := After(u, y, events);
            && (id in z.store.inputs <==> id in y.store.inputs && DeleteRun(id, true, false) !in events)
            && (id in z.store.inputs ==> z.store.inputs[id] == y.store.inputs[id])
    decreases |events|
  {
    if events != [] {
      LastStep(u, y, events);
      hide AllSane, StoreAfter, Enabled, RunAfter, After, Possible, Sound, RunsAgree;
      var n := |events| - 1;
      var z := After(u, y, events[..n]);
      AfterSound(u, y, events[..n]);
      WasThere(u, z, events[n], id);
      InputFixed(u, y, events[..n], id);
      RunsAlwaysAgree(u, y, events[..n]);
      InputFixedByStep(u, z, events[n], id);
      LastOrBefore(events, DeleteRun(id, true, false));
    }
  }

  lemma {:induction false} LastOrBefore(events: seq<Event>, e: Event)
    requires events != []
    ensures e in events <==> e in events[..|events| - 1] || e == events[|events| - 1]
  {
    assert events == events[..|events| - 1] + [events[|events| - 1]];
  }

  /** A run fired for a schedule carries what was stored for the schedule when it was fired. */
  lemma {:induction false} FiredCarriesSchedule(u: Setup, y: System, e: Event)
    requires Enabled(y, e) && SchedulesAgree(y.store) && FiresSchedule(e)
    requires e.id !in y.store.runs && e.id in StoreAfter(u, y, e).runs
    ensures Trigger(y, e).Some? && Trigger(y, e).value in y.store.inputs && e.id in StoreAfter(u, y, e).inputs
    ensures StoreAfter(u, y, e).inputs[e.id] == y.store.inputs[Trigger(y, e).value]
    ensures Trigger(y, e).value in y.store.schedules
    ensures StoreAfter(u, y, e).runs[e.id].pipeline == y.store.schedules[Trigger(y, e).value].pipeline
  {
    hide Schedules.Fire, Schedules.ApplyFireResult, Masked, Retries, Adds;
    var schedule := if e.TriggerNow? then e.schedule else y.claims[e.claim].schedule;
    if schedule in y.store.schedules {
      FireInput(y.store, u.cfg, schedule, e.id, y.clock, e.world);
      NotDoneNotMade(y.store, u.cfg, schedule, e.id, y.clock, e.world);
    }
  }

  lemma {:induction false} NotDoneNotMade(s: Store, cfg: Settings, id: Id, runId: Id, now: Time, world: World)
    requires id in s.schedules && runId !in s.runs
    ensures runId in Schedules.Fire(s, cfg, id, runId, now, world).store.runs ==>
            Schedules.Fire(s, cfg, id, runId, now, world).Done?
  {
  }
}
