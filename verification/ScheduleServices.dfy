/** The schedule service and the dispatcher as they update rows and stored inputs, each call proved against its step. */
module ScheduleServices {
  import opened Options
  import opened Records
  import opened Services
  import D = Dispatcher
  import Dispatch
  import Lines
  import Ordering
  import Runs
  import S = Schedules
  import Secrets

  class ScheduleService {
    const cfg: Settings
    const cal: S.Calendar
    const db: Database
    const storage: RunInputStorage

    constructor (cfg: Settings, cal: S.Calendar, db: Database, storage: RunInputStorage)
      ensures this.cfg == cfg && this.cal == cal && this.db == db && this.storage == storage
    {
      this.cfg, this.cal, this.db, this.storage := cfg, cal, db, storage;
    }

    ghost function State(): Store
      reads db, storage
    {
      Store(db.runs, db.schedules, storage.inputs, db.profiles)
    }

    /** Samples some occurrences: whether they exist and none follows another closer than the interval. */
    method WellSpaced(c: Cron, interval: int, now: Time) returns (ok: bool)
      ensures ok == var first := cal.next(S.Unzoned(c), now);
                    first.Some? && S.Spread(cal, S.Unzoned(c), first.value, S.SAMPLES - 1, interval)
    {
      var unzoned := S.Unzoned(c);
      var first := cal.next(unzoned, now);
      if first.None? {
        return false;
      }
      var previous := first.value;
      for i := 0 to S.SAMPLES - 1
        invariant S.Spread(cal, unzoned, first.value, S.SAMPLES - 1, interval)
                  == S.Spread(cal, unzoned, previous, S.SAMPLES - 1 - i, interval)
      {
        var current := cal.next(unzoned, previous);
        if current.None? || current.value - previous < interval {
          return false;
        }
        previous := current.value;
      }
      ok := true;
    }

    /** Whether an expression is taken: by the library, and by the sampling where an interval is set. */
    method ValidateCron(c: Cron, now: Time) returns (ok: bool)
      ensures ok == S.Accepted(cal, cfg, c, now)
    {
      if !cal.accepts(c) {
        return false;
      }
      if cfg.minInterval > 0 {
        ok := WellSpaced(c, cfg.minInterval, now);
        return;
      }
      ok := true;
    }

    static method ApplyRequest(schedule: Schedule, req: S.ScheduleRequest, pipeline: Pipeline) returns (row: Schedule)
      ensures row == S.ApplyRequest(schedule, req, pipeline)
    {
      row := schedule.(cron := req.cron);
      row := row.(overlap := req.overlap);
      row := row.(profileId := req.run.profileId);
      var image := Lines.Strip(req.run.pdeImage.GetOr(""), Lines.IsSpace);
      row := row.(pdeImage := if image == "" then None else Some(image));
      var secure := Secrets.MaskSecureVars(pipeline.secure);
      row := row.(pipeline := pipeline.(secure := secure));
      row := row.(envVars := req.run.envVars);
    }

    method CreateSchedule(req: S.ScheduleRequest, id: Id, now: Time, world: World) returns (r: Outcome<Id>)
      modifies db, storage
      ensures var effect := S.Create(old(State()), cfg, cal, req, id, now, world);
              State() == effect.store && r == OutcomeOf(effect)
    {
      var accepted := ValidateCron(req.cron, now);
      if !accepted || Lines.Blank(req.run.pipeline.data) {
        return Failure(ScheduleInvalid);
      }
      if req.run.profileId !in db.profiles {
        return Failure(ProfileNotFound);
      }
      var merged := Secrets.MergeMaskedSecure(req.run.pipeline.secure, None);
      if merged.UnknownKey? {
        return Failure(ScheduleInvalid);
      }
      var pipeline := req.run.pipeline.(secure := merged.text);
      var stored := storage.Store(id, Payload(pipeline, None), world.storageOk);
      if !stored {
        return Failure(StorageFailed);
      }
      var next := if req.enabled then cal.next(req.cron, now) else None;
      if req.enabled && next.None? {
        return Failure(ScheduleInvalid);
      }
      var row := ApplyRequest(
        Schedule(req.cron, req.enabled, req.overlap, req.run.profileId, None, Masked(pipeline), None,
                 req.run.templateId, next, None, None, None, None, now),
        req, pipeline);
      if !world.committed {
        return Failure(CommitFailed);
      }
      db.schedules := db.schedules[id := row];
      r := Returned(id);
    }

    method UpdateSchedule(id: Id, req: S.ScheduleRequest, now: Time, world: World) returns (r: Outcome<Id>)
      modifies db, storage
      ensures var effect := S.Update(old(State()), cfg, cal, id, req, now, world);
              State() == effect.store && r == OutcomeOf(effect)
    {
      if id !in db.schedules {
        return Failure(ScheduleNotFound);
      }
      var accepted := ValidateCron(req.cron, now);
      if !accepted {
        return Failure(ScheduleInvalid);
      }
      if req.run.profileId !in db.profiles {
        return Failure(ProfileNotFound);
      }
      var current := storage.Load(id, world.readable);
      if current.None? {
        return Failure(InputNotAvailable);
      }
      var merged := Secrets.MergeMaskedSecure(req.run.pipeline.secure, current.value.pipeline.secure);
      if merged.UnknownKey? {
        return Failure(ScheduleInvalid);
      }
      var pipeline := req.run.pipeline.(secure := merged.text);
      var stored := storage.Store(id, Payload(pipeline, None), world.storageOk);
      if !stored {
        return Failure(StorageFailed);
      }
      var schedule := db.schedules[id];
      var scheduleChanged := schedule.cron != req.cron;
      var row := ApplyRequest(schedule, req, pipeline);
      row := row.(updatedAt := now);
      if !req.enabled {
        row := row.(enabled := false);
        row := row.(nextFireAt := None);
      } else {
        if !schedule.enabled || scheduleChanged || schedule.nextFireAt.None? {
          var next := cal.next(req.cron, now);
          if next.None? {
            return Failure(ScheduleInvalid);
          }
          row := row.(nextFireAt := next);
        }
        row := row.(enabled := true);
      }
      if !world.committed {
        return Failure(CommitFailed);
      }
      db.schedules := db.schedules[id := row];
      r := Returned(id);
    }

    method SetEnabled(id: Id, enabled: bool, now: Time) returns (r: Outcome<Id>)
      modifies db
      ensures var effect := S.SetEnabled(old(State()), cal, id, enabled, now);
              State() == effect.store && r == OutcomeOf(effect)
    {
      if id !in db.schedules {
        return Failure(ScheduleNotFound);
      }
      var row := db.schedules[id];
      if row.enabled == enabled {
        return Returned(id);
      }
      row := row.(enabled := enabled);
      var next := if enabled then cal.next(row.cron, now) else None;
      if enabled && next.None? {
        return Failure(ScheduleInvalid);
      }
      row := row.(nextFireAt := next);
      row := row.(updatedAt := now);
      db.schedules := db.schedules[id := row];
      r := Returned(id);
    }

    method DeleteSchedule(id: Id, cleanupOk: bool, committed: bool) returns (r: Outcome<Id>)
      modifies db, storage
      ensures var effect := S.Delete(old(State()), id, cleanupOk, committed);
              State() == effect.store && r == OutcomeOf(effect)
    {
      if id !in db.schedules {
        return Failure(ScheduleNotFound);
      }
      var deleted := storage.Delete(id, cleanupOk);
      if !deleted {
        return Failure(CleanupFailed);
      }
      if !committed {
        return Failure(CommitFailed);
      }
      db.schedules := db.schedules - {id};
      r := Returned(id);
    }

    /** Deletes the rows first; an input whose deletion fails is left behind. */
    method DeleteAllSchedules(kept: set<Id>) returns (count: nat)
      modifies db, storage
      ensures State() == S.DeleteAll(old(State()), kept) && count == |old(db.schedules)|
    {
      var ids := db.schedules.Keys;
      count := |db.schedules|;
      db.schedules := map[];
      var todo := ids;
      while todo != {}
        invariant todo <= ids && db.schedules == map[] && db.runs == old(db.runs) && db.profiles == old(db.profiles)
        invariant storage.inputs == old(storage.inputs) - (ids - todo - kept)
      {
        var id :| id in todo;
        todo := todo - {id};
        var deleted := storage.Delete(id, id !in kept);
      }
    }

    /** Creates a run from the stored input; what becomes of it is recorded by the caller. */
    method Fire(id: Id, runId: Id, now: Time, world: World) returns (r: Outcome<Id>)
      requires id in db.schedules
      modifies db, storage
      ensures var effect := S.Fire(old(State()), cfg, id, runId, now, world);
              State() == effect.store && r == OutcomeOf(effect)
    {
      var schedule := db.schedules[id];
      var payload := storage.Load(id, world.readable);
      if payload.None? {
        return Failure(InputNotAvailable);
      }
      var runs := new RunService(cfg, db, storage);
      hide Runs.CreateRun;
      r := runs.CreateRun(
        RunRequest(
          schedule.profileId, payload.value.pipeline, schedule.envVars, schedule.pdeImage, schedule.templateId),
        Some(id), runId, now, world);
    }

    static method ApplyFireResult(
      schedule: Schedule, now: Time, status: FireStatus, runId: Option<Id>, error: Option<FireError>)
      returns (row: Schedule)
      ensures row == S.ApplyFireResult(schedule, now, status, runId, error)
    {
      row := schedule.(lastFireAt := Some(now));
      row := row.(lastFireStatus := Some(status));
      row := row.(lastFireError := error);
      if runId.Some? {
        row := row.(lastRunId := runId);
      }
      row := row.(updatedAt := now);
    }

    /** Commits the outcome of a firing; a failing commit is raised. */
    method RecordFire(
      id: Id, now: Time, status: FireStatus, runId: Option<Id>, error: Option<FireError>, committed: bool)
      returns (r: Outcome<Id>)
      requires id in db.schedules
      modifies db
      ensures var effect := S.Record(old(State()), id, now, status, runId, error, committed);
              State() == effect.store && r == OutcomeOf(effect)
    {
      var row := ApplyFireResult(db.schedules[id], now, status, runId, error);
      if !committed {
        return Failure(CommitFailed);
      }
      db.schedules := db.schedules[id := row];
      r := Returned(id);
    }

    method TriggerNow(id: Id, runId: Id, now: Time, world: World, committed: bool) returns (r: Outcome<Id>)
      modifies db, storage
      ensures var effect := S.TriggerNow(old(State()), cfg, id, runId, now, world, committed);
              State() == effect.store && r == OutcomeOf(effect)
    {
      if id !in db.schedules {
        return Failure(ScheduleNotFound);
      }
      S.FireKeepsRows(State(), cfg, id, runId, now, world);
      hide S.Fire, S.Record;
      var fired := Fire(id, runId, now, world);
      if fired.Failure? {
        return fired;
      }
      var recorded := RecordFire(id, now, FireSuccess, Some(runId), None, committed);
      r := if recorded.Failure? then recorded else Returned(runId);
    }
  }

  class ScheduleDispatcher {
    const cfg: Settings
    const cal: S.Calendar
    const db: Database
    const storage: RunInputStorage

    constructor (cfg: Settings, cal: S.Calendar, db: Database, storage: RunInputStorage)
      ensures this.cfg == cfg && this.cal == cal && this.db == db && this.storage == storage
    {
      this.cfg, this.cal, this.db, this.storage := cfg, cal, db, storage;
    }

    ghost function State(): Store
      reads db, storage
    {
      Store(db.runs, db.schedules, storage.inputs, db.profiles)
    }

    /** The schedules of a batch that still have a run in flight. */
    method ActiveRunRefs(ids: seq<Id>) returns (refs: set<Id>)
      ensures forall id :: id in refs <==> id in ids && D.IsBusy(db.runs, id)
    {
      refs := set id | id in ids && D.IsBusy(db.runs, id);
    }

    /** One due row, and whether it is left to be fired. */
    method ClaimRow(schedule: Schedule, busy: bool, now: Time) returns (row: Schedule, toFire: bool)
      ensures row == D.ClaimRow(schedule, busy, cal, cfg, now)
      ensures toFire == (D.Decide(schedule, busy, cal, cfg, now) == D.Claimed)
    {
      row, toFire := schedule, false;
      var planned := row.nextFireAt;
      var next := cal.next(row.cron, now);
      if next.None? {
        row := row.(enabled := false);
        row := row.(nextFireAt := None);
        row := ScheduleService.ApplyFireResult(row, now, FireFailed, None, Some(InvalidCron));
        return;
      }
      row := row.(nextFireAt := next);
      if planned.None? {
        return;
      }
      if now - planned.value > cfg.missedGrace {
        row := ScheduleService.ApplyFireResult(row, now, SkippedMissed, None, Some(MissedAt(planned.value)));
        return;
      }
      if row.overlap == Skip && busy {
        row := ScheduleService.ApplyFireResult(row, now, SkippedOverlap, None, None);
        return;
      }
      toFire := true;
    }

    /** Claims and re-anchors the due rows in one session. */
    method ClaimDue(now: Time, locked: set<Id>) returns (toFire: seq<Id>)
      modifies db`schedules
      ensures var claimed := D.ClaimDue(old(State()), cfg, cal, now, locked);
              State() == claimed.store && toFire == claimed.toFire
    {
      var due := D.Batch(db.schedules, cfg, now, locked);
      Dispatch.BatchDistinct(db.schedules, cfg, now, locked);
      var activeRefs := ActiveRunRefs(due);
      toFire := [];
      var rows := db.schedules;
      hide D.Batch, D.ClaimRow, D.Decide, D.IsBusy, D.ClaimRows, D.ToFire;
      NothingClaimed(State(), cal, cfg, now);
      for i := 0 to |due|
        invariant State() == old(State())
        invariant forall id | id in due[..i] :: id in db.schedules
        invariant rows == D.ClaimRows(State(), due[..i], cal, cfg, now)
        invariant toFire == D.ToFire(State(), due[..i], cal, cfg, now)
      {
        var id := due[i];
        ClaimNext(State(), due, i, cal, cfg, now);
        var row, left := ClaimRow(rows[id], id in activeRefs, now);
        rows := rows[id := row];
        if left {
          toFire := toFire + [id];
        }
      }
      assert due[..|due|] == due;
      db.schedules := rows;
    }

    /** Fires one claim: whether it made a run, or the failing commit of its outcome. */
    method Fire(id: Id, reading: Time, runId: Id, now: Time, world: World, committed: bool) returns (r: Outcome<bool>)
      modifies db, storage
      ensures var fired := D.FireClaim(old(State()), cfg, id, reading, runId, now, world, committed);
              State() == fired.store && r == if fired.raised then Failure(CommitFailed) else Returned(fired.run.Some?)
    {
      var service := new ScheduleService(cfg, cal, db, storage);
      if id !in db.schedules {
        return Returned(false);
      }
      S.FireKeepsRows(State(), cfg, id, runId, now, world);
      hide S.Fire;
      var outcome := service.Fire(id, runId, now, world);
      var recorded;
      if outcome.Failure? {
        recorded := service.RecordFire(id, reading, FireFailed, None, Some(NotFired(outcome.error)), committed);
        return if recorded.Failure? then Failure(recorded.error) else Returned(false);
      }
      recorded := service.RecordFire(id, reading, FireSuccess, Some(runId), None, committed);
      r := if recorded.Failure? then Failure(recorded.error) else Returned(true);
    }

    /** A tick: claims in one session, then fires each claim in a session of its own; one that raises ends the tick. */
    method FireDueOnce(now: Time, locked: set<Id>, draw: nat -> D.Draw) returns (r: Outcome<nat>)
      modifies db, storage
      ensures var claimed := D.ClaimDue(old(State()), cfg, cal, now, locked);
              var tally := D.FireAll(claimed.store, cfg, claimed.toFire, now, draw);
              State() == tally.store && r == if tally.raised then Failure(CommitFailed) else Returned(tally.fired)
    {
      hide D.ClaimDue, D.FireClaim;
      var dueIds := ClaimDue(now, locked);
      ghost var claimed := State();
      var fired := 0;
      for i := 0 to |dueIds|
        invariant D.Tally(State(), fired, false) == D.FireAll(claimed, cfg, dueIds[..i], now, draw)
      {
        assert dueIds[..i + 1][..i] == dueIds[..i];
        var d := draw(i);
        var made := Fire(dueIds[i], now, d.run, d.now, d.world, d.committed);
        if made.Failure? {
          RestAbandoned(claimed, cfg, dueIds, i + 1, now, draw);
          return Failure(made.error);
        }
        if made.value { fired := fired + 1; }
      }
      assert dueIds[..|dueIds|] == dueIds;
      r := Returned(fired);
    }
  }

  /** Once a firing has raised, the claims after it change nothing. */
  lemma {:induction false} RestAbandoned(
    s: Store, cfg: Settings, ids: seq<Id>, i: nat, reading: Time, draw: nat -> D.Draw)
    requires i <= |ids| && D.FireAll(s, cfg, ids[..i], reading, draw).raised
    ensures D.FireAll(s, cfg, ids, reading, draw) == D.FireAll(s, cfg, ids[..i], reading, draw)
  {
    hide D.FireClaim;
    if i == |ids| {
      assert ids[..i] == ids;
    } else {
      var k := |ids| - 1;
      assert ids[..k][..i] == ids[..i];
      RestAbandoned(s, cfg, ids[..k], i, reading, draw);
    }
  }

  lemma {:induction false} NothingClaimed(s: Store, cal: S.Calendar, cfg: Settings, now: Time)
    ensures D.ClaimRows(s, [], cal, cfg, now) == s.schedules && D.ToFire(s, [], cal, cfg, now) == []
  {
  }

  lemma {:induction false} ClaimNext(s: Store, due: seq<Id>, i: nat, cal: S.Calendar, cfg: Settings, now: Time)
    requires i < |due| && Ordering.Distinct(due) && forall id | id in due :: id in s.schedules
    ensures var before, id := D.ClaimRows(s, due[..i], cal, cfg, now), due[i];
            && id in before && before[id] == s.schedules[id]
            && D.ClaimRows(s, due[..i + 1], cal, cfg, now)
               == before[id := D.ClaimRow(s.schedules[id], D.IsBusy(s.runs, id), cal, cfg, now)]
    ensures D.ToFire(s, due[..i + 1], cal, cfg, now)
            == D.ToFire(s, due[..i], cal, cfg, now)
               + if D.Decide(s.schedules[due[i]], D.IsBusy(s.runs, due[i]), cal, cfg, now) == D.Claimed
                 then [due[i]] else []
  {
    hide D.ClaimRow, D.Decide, D.IsBusy;
    assert due[..i + 1][..i] == due[..i];
    assert due[i] !in due[..i];
  }
}
