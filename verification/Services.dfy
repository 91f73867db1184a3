/** The tables, the input storage and the run service, updated in place: each call is proved against its step. */
module Services {
  import opened Options
  import opened Records
  import Lines
  import Runs
  import Secrets

  /** What a call gives back: a value, or the error it raises. */
  datatype Outcome<T> = Returned(value: T) | Failure(error: Error)

  function OutcomeOf<T>(e: Effect<T>): Outcome<T> {
    match e
    case Done(_, value) => Returned(value)
    case Raised(_, error) => Failure(error)
  }

  /** The committed rows. */
  class Database {
    var runs: map<Id, Run>
    var schedules: map<Id, Schedule>
    var profiles: map<string, string>

    constructor ()
      ensures runs == map[] && schedules == map[] && profiles == map[]
    {
      runs, schedules, profiles := map[], map[], map[];
    }
  }

  /** Inputs by the id of a run or a schedule. */
  class RunInputStorage {
    var inputs: map<Id, Payload>

    constructor ()
      ensures inputs == map[]
    {
      inputs := map[];
    }

    method Store(id: Id, payload: Payload, reachable: bool) returns (stored: bool)
      modifies this
      ensures stored == reachable
      ensures inputs == if reachable then old(inputs)[id := payload] else old(inputs)
    {
      stored := reachable;
      if reachable { inputs := inputs[id := payload]; }
    }

    /** The input under an id; none too when it cannot be decrypted. */
    method Load(id: Id, readable: bool) returns (payload: Option<Payload>)
      ensures payload == if id in inputs && readable then Some(inputs[id]) else None
    {
      if id !in inputs {
        return None;
      }
      payload := if readable then Some(inputs[id]) else None;
    }

    method Delete(id: Id, reachable: bool) returns (deleted: bool)
      modifies this
      ensures deleted == reachable
      ensures inputs == if reachable then old(inputs) - {id} else old(inputs)
    {
      deleted := reachable;
      if reachable { inputs := inputs - {id}; }
    }
  }

  // ---------- runs

  class RunService {
    const cfg: Settings
    const db: Database
    const storage: RunInputStorage

    constructor (cfg: Settings, db: Database, storage: RunInputStorage)
      ensures this.cfg == cfg && this.db == db && this.storage == storage
    {
      this.cfg, this.db, this.storage := cfg, db, storage;
    }

    ghost function State(): Store
      reads db, storage
    {
      Store(db.runs, db.schedules, storage.inputs, db.profiles)
    }

    method CreateRun(req: RunRequest, triggeredBy: Option<Id>, id: Id, now: Time, world: World)
      returns (r: Outcome<Id>)
      modifies db, storage
      ensures var effect := Runs.CreateRun(old(State()), cfg, req, id, triggeredBy, now, world);
              State() == effect.store && r == OutcomeOf(effect)
    {
      if req.profileId !in db.profiles {
        return Failure(ProfileNotFound);
      }
      var stored := storage.Store(id, Payload(req.pipeline, None), world.storageOk);
      if !stored {
        return Failure(StorageFailed);
      }
      var image := GivenOr(req.pdeImage, db.profiles[req.profileId]);
      var secure := Secrets.MaskSecureVars(req.pipeline.secure);
      var run := Runs.NewRun(
        req.profileId, image, req.pipeline.(secure := secure), None, req.envVars, triggeredBy, None, req.templateId,
        now);
      r := AddAndStart(run, id, now, world);
    }

    /** Adds the row and, without a queue, its Job; when the Job is refused or the commit fails there is no row. */
    method AddAndStart(run: Run, id: Id, now: Time, world: World) returns (r: Outcome<Id>)
      modifies db
      ensures db.schedules == old(db.schedules) && db.profiles == old(db.profiles)
      ensures match Runs.StartJobNow(cfg, run, id, now, world.jobOk)
              case None => db.runs == old(db.runs) && r == Failure(JobCreationFailed)
              case Some(started) =>
                if world.committed then db.runs == old(db.runs)[id := started] && r == Returned(id)
                else db.runs == old(db.runs) && r == Failure(CommitFailed)
    {
      var row := run;
      if !cfg.queueEnabled && cfg.jobCreationEnabled {
        if !world.jobOk {
          return Failure(JobCreationFailed);
        }
        row := row.(jobName := Some(JobName(id)));
        row := row.(status := NotStarted);
        row := row.(statusUpdatedAt := Some(now));
      }
      if !world.committed {
        return Failure(CommitFailed);
      }
      db.runs := db.runs[id := row];
      r := Returned(id);
    }

    method RetryRun(parentId: Id, req: Runs.RetryRequest, id: Id, now: Time, stateOk: bool, world: World)
      returns (r: Outcome<Id>)
      modifies db, storage
      ensures var effect := Runs.Retry(old(State()), cfg, parentId, req, id, now, stateOk, world);
              State() == effect.store && r == OutcomeOf(effect)
    {
      hide Runs.NewRun, Runs.StartJobNow, GivenOr, IsRetryable;
      if parentId !in db.runs {
        return Failure(RunNotFound);
      }
      var parent := db.runs[parentId];
      if !IsRetryable(parent.status) {
        return Failure(NotRetriable);
      }
      if parent.stateLocation.GetOr("") == "" || !stateOk {
        return Failure(StateNotAvailable);
      }
      if parent.profileId !in db.profiles {
        return Failure(ProfileNotFound);
      }
      var envVars := if req.envVars.None? then parent.envVars else req.envVars;
      var retryVars := if req.retryVars.None? then parent.retryVars else req.retryVars;
      var fallback := if parent.pdeImage != "" then parent.pdeImage else db.profiles[parent.profileId];
      var image := GivenOr(req.pdeImage, fallback);
      var parentInput := storage.Load(parentId, world.readable);
      if parentInput.None? {
        return Failure(InputNotAvailable);
      }
      var stored := storage.Store(id, parentInput.value.(retryVars := retryVars), world.storageOk);
      if !stored {
        return Failure(StorageFailed);
      }
      var run := Runs.NewRun(
        parent.profileId, image, parent.pipeline, retryVars, envVars, None, Some(parentId), parent.templateId, now);
      r := AddAndStart(run, id, now, world);
    }

    method CancelRun(id: Id, now: Time) returns (r: Outcome<Id>)
      modifies db
      ensures var effect := Runs.Cancel(old(State()), id, now); State() == effect.store && r == OutcomeOf(effect)
    {
      if id !in db.runs {
        return Failure(RunNotFound);
      }
      var run := db.runs[id];
      if IsTerminal(run.status) || run.cancelRequestedAt.Some? {
        return Failure(NotCancellable);
      }
      run := run.(cancelRequestedAt := Some(now));
      if run.jobName.None? {
        run := run.(status := Cancelled);
        run := run.(finishedAt := Some(now));
      }
      db.runs := db.runs[id := run];
      r := Returned(id);
    }

    method DeleteRun(id: Id, cleanupOk: bool, committed: bool) returns (r: Outcome<Id>)
      modifies db, storage
      ensures var effect := Runs.Delete(old(State()), id, cleanupOk, committed);
              State() == effect.store && r == OutcomeOf(effect)
    {
      if id !in db.runs {
        return Failure(RunNotFound);
      }
      var deleted := storage.Delete(id, cleanupOk);
      if !deleted {
        return Failure(CleanupFailed);
      }
      if !committed {
        return Failure(CommitFailed);
      }
      db.runs := db.runs - {id};
      r := Returned(id);
    }

    static method ApplyStatusFields(row: Run, report: Runs.StatusReport, now: Time) returns (run: Run)
      ensures run == Runs.ApplyStatus(row, report, now).(statusUpdatedAt := row.statusUpdatedAt)
    {
      run := row;
      if run.name.None? && report.name.Some? && !Lines.Blank(report.name.value) {
        run := run.(name := Some(Lines.Strip(report.name.value, Lines.IsSpace)));
      }
      assert Lines.Blank(report.name.GetOr("")) <==> Lines.Strip(report.name.GetOr(""), Lines.IsSpace) == "" by {
        BlankIsStripped(report.name.GetOr(""));
      }
      var mapped := Runs.ParseStatus(report.status);
      if mapped.Some? {
        run := run.(status := mapped.value);
      }
      if run.startedAt.None? {
        run := run.(startedAt := report.startedAt);
      }
      if IsTerminal(run.status) {
        run := run.(finishedAt := Some(report.finishedAt.GetOr(now)));
      }
    }

    static lemma {:induction false} BlankIsStripped(s: string)
      ensures Lines.Blank(s) <==> Lines.Strip(s, Lines.IsSpace) == ""
    {
      var i, j := Lines.StripIsMiddle(s, Lines.IsSpace);
      if i < j {
        assert s[i] in s;
      } else {
        forall c | c in s ensures Lines.IsSpace(c) {
          var k :| 0 <= k < |s| && s[k] == c;
        }
      }
    }

    method DeliverStatus(id: Id, report: Runs.StatusReport, now: Time) returns (r: Outcome<Id>)
      modifies db
      ensures var effect := Runs.DeliverStatus(old(State()), id, report, now);
              State() == effect.store && r == OutcomeOf(effect)
    {
      if id !in db.runs {
        return Failure(RunNotFound);
      }
      var run := db.runs[id].(statusUpdatedAt := Some(now));
      run := ApplyStatusFields(run, report, now);
      db.runs := db.runs[id := run];
      r := Returned(id);
    }

    static method ApplyReportFinishCode(row: Run, code: Option<string>) returns (run: Run)
      ensures run == Runs.ApplyReportCode(row, code)
    {
      run := row;
      if Runs.IsOperatorCode(run.finishCode) {
        return;
      }
      if code.Some? {
        run := run.(finishCode := code);
      }
    }

    method DeliverReport(id: Id, code: Option<string>, now: Time, storageOk: bool) returns (r: Outcome<Id>)
      modifies db
      ensures var effect := Runs.DeliverReport(old(State()), id, code, now, storageOk);
              State() == effect.store && r == OutcomeOf(effect)
    {
      if id !in db.runs {
        return Failure(RunNotFound);
      }
      if !storageOk {
        return Failure(StorageFailed);
      }
      var run := db.runs[id].(reportUpdatedAt := Some(now));
      run := ApplyReportFinishCode(run, code);
      db.runs := db.runs[id := run];
      r := Returned(id);
    }

    method UploadArtifacts(id: Id, up: Runs.Upload, now: Time, storageOk: bool) returns (r: Outcome<Id>)
      modifies db
      ensures var effect := Runs.UploadArtifacts(old(State()), id, up, now, storageOk);
              State() == effect.store && r == OutcomeOf(effect)
    {
      if id !in db.runs {
        return Failure(RunNotFound);
      }
      if Runs.UploadsSome(up) && !storageOk {
        return Failure(StorageFailed);
      }
      var run := db.runs[id];
      if up.state.Some? {
        run := run.(stateLocation := up.state);
      }
      if up.report.Some? {
        run := run.(reportUpdatedAt := Some(now));
        run := ApplyReportFinishCode(run, up.report.value);
      }
      if up.log {
        run := run.(logUpdatedAt := Some(now));
      }
      db.runs := db.runs[id := run];
      r := Returned(id);
    }
  }
}
