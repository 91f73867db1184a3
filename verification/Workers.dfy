/** The queue worker and the reconciler as loops over the rows of one session, committed at the end. */
module Workers {
  import opened Options
  import opened Records
  import opened Services
  import Ordering
  import Queue
  import R = Reconciler

  class QueueService {
    const cfg: Settings
    const db: Database

    constructor (cfg: Settings, db: Database)
      ensures this.cfg == cfg && this.db == db
    {
      this.cfg, this.db := cfg, db;
    }

    method FreeSlots() returns (free: Option<nat>)
      ensures free == Queue.FreeSlots(db.runs, cfg)
    {
      if cfg.maxConcurrentRuns <= 0 {
        return None;
      }
      var active := |Queue.Active(db.runs)|;
      free := Some(if cfg.maxConcurrentRuns < active then 0 else cfg.maxConcurrentRuns - active);
    }

    /** The waiting runs, oldest first, as many as there are slots. */
    method WaitingInOrder(free: Option<nat>, locked: set<Id>) returns (queued: seq<Id>)
      requires free == Queue.FreeSlots(db.runs, cfg)
      ensures queued == Queue.Batch(db.runs, cfg, locked) && Ordering.Distinct(queued)
      ensures forall id | id in queued :: id in db.runs
      ensures forall i, j | 0 <= i < j < |queued| :: Queue.CreatedBefore(db.runs, queued[i], queued[j])
    {
      queued := Ordering.Sorted(Queue.ByCreation(db.runs), Queue.Waiting(db.runs, locked));
      SortedByCreation(db.runs, queued);
      hide Queue.FreeSlots, Queue.ByCreation, Queue.CreatedBefore, Ordering.Before;
      Ordering.OrderedDistinct(Queue.ByCreation(db.runs), queued);
      if free.Some? {
        queued := Ordering.Limited(queued, free.value);
      }
    }

    /** One waiting run, and whether it got its Job. */
    method AdmitRun(row: Run, id: Id, refused: set<Id>, now: Time) returns (run: Run, admitted: bool)
      ensures run == Queue.AdmitRun(row, id, db.profiles, refused, now)
      ensures admitted == (row.profileId in db.profiles && id !in refused)
    {
      run, admitted := row, false;
      if run.profileId !in db.profiles {
        run := run.(status := Failed);
        run := run.(finishedAt := Some(now));
        return;
      }
      if id in refused {
        return;
      }
      run := run.(jobName := Some(JobName(id)));
      run := run.(status := NotStarted);
      run := run.(statusUpdatedAt := Some(now));
      admitted := true;
    }

    /** Admits waiting runs in order while slots are free, and counts those that got their Job. */
    method AdmitOnce(locked: set<Id>, refused: set<Id>, now: Time) returns (started: nat)
      modifies db`runs
      ensures db.runs == if cfg.jobCreationEnabled
                         then Queue.AdmitAll(old(db.runs), Queue.Batch(old(db.runs), cfg, locked), db.profiles,
                                             refused, now)
                         else old(db.runs)
      ensures started == if cfg.jobCreationEnabled
                         then Started(old(db.runs), Queue.Batch(old(db.runs), cfg, locked), db.profiles, refused)
                         else 0
    {
      if !cfg.jobCreationEnabled {
        return 0;
      }
      hide Queue.Batch, Queue.FreeSlots, Queue.AdmitRun, Queue.AdmitAll, Started;
      AdmitNothing(db.runs, db.profiles, refused, now);
      var free := FreeSlots();
      if free == Some(0) {
        NoSlots(db.runs, cfg, locked);
        return 0;
      }
      var queued := WaitingInOrder(free, locked);
      if |queued| == 0 {
        return 0;
      }
      started := 0;
      var rows := db.runs;
      for i := 0 to |queued|
        invariant db.runs == old(db.runs) && forall id | id in queued[..i] :: id in db.runs
        invariant rows == Queue.AdmitAll(db.runs, queued[..i], db.profiles, refused, now)
        invariant started == Started(db.runs, queued[..i], db.profiles, refused)
      {
        AdmitNext(db.runs, queued, i, db.profiles, refused, now);
        var run, admitted := AdmitRun(rows[queued[i]], queued[i], refused, now);
        rows := rows[queued[i] := run];
        if admitted { started := started + 1; }
      }
      assert queued[..|queued|] == queued;
      db.runs := rows;
    }
  }

  lemma {:induction false} SortedByCreation(runs: map<Id, Run>, list: seq<Id>)
    requires Ordering.Ordered(Queue.ByCreation(runs), list) && forall id | id in list :: id in runs
    ensures forall i, j | 0 <= i < j < |list| :: Queue.CreatedBefore(runs, list[i], list[j])
  {
    forall i, j | 0 <= i < j < |list| ensures Queue.CreatedBefore(runs, list[i], list[j]) {
      assert Ordering.Before(Queue.ByCreation(runs), list[i], list[j]);
    }
  }

  /** How many runs of a batch get their Job. */
  function Started(runs: map<Id, Run>, batch: seq<Id>, profiles: map<string, string>, refused: set<Id>): nat
    requires forall id | id in batch :: id in runs
  {
    if batch == [] then 0
    else
      var last := batch[|batch| - 1];
      Started(runs, batch[..|batch| - 1], profiles, refused)
      + if runs[last].profileId in profiles && last !in refused then 1 else 0
  }

  lemma {:induction false} AdmitNothing(runs: map<Id, Run>, profiles: map<string, string>, refused: set<Id>, now: Time)
    ensures Queue.AdmitAll(runs, [], profiles, refused, now) == runs
  {
  }

  lemma {:induction false} NoSlots(runs: map<Id, Run>, cfg: Settings, locked: set<Id>)
    requires Queue.FreeSlots(runs, cfg) == Some(0)
    ensures Queue.Batch(runs, cfg, locked) == []
  {
  }

  lemma {:induction false} AdmitNext(
    runs: map<Id, Run>, batch: seq<Id>, i: nat, profiles: map<string, string>, refused: set<Id>, now: Time)
    requires i < |batch| && Ordering.Distinct(batch) && forall id | id in batch :: id in runs
    ensures var before, after := Queue.AdmitAll(runs, batch[..i], profiles, refused, now),
                                 Queue.AdmitAll(runs, batch[..i + 1], profiles, refused, now);
            && batch[i] in before && before[batch[i]] == runs[batch[i]]
            && after == before[batch[i] := Queue.AdmitRun(runs[batch[i]], batch[i], profiles, refused, now)]
    ensures Started(runs, batch[..i + 1], profiles, refused)
            == Started(runs, batch[..i], profiles, refused)
               + if runs[batch[i]].profileId in profiles && batch[i] !in refused then 1 else 0
  {
    hide Queue.AdmitRun;
    assert batch[..i + 1][..i] == batch[..i];
    assert batch[i] !in batch[..i];
  }

  /** The runs that have a Job and had none. */
  function GotJob(before: map<Id, Run>, after: map<Id, Run>): set<Id> {
    set id | id in before && id in after && before[id].jobName.None? && after[id].jobName.Some?
  }

  /** What a tick of the queue counts is the number of runs that have got their Job. */
  lemma {:induction false} StartedGotJob(
    runs: map<Id, Run>, batch: seq<Id>, profiles: map<string, string>, refused: set<Id>, now: Time)
    requires Ordering.Distinct(batch) && forall id | id in batch :: id in runs && IsWaiting(runs[id])
    ensures Started(runs, batch, profiles, refused)
            == |GotJob(runs, Queue.AdmitAll(runs, batch, profiles, refused, now))|
  {
    hide JobName, Started;
    if batch == [] {
      assert Started(runs, batch, profiles, refused) == 0 by { StartedNone(runs, profiles, refused); }
      assert GotJob(runs, Queue.AdmitAll(runs, [], profiles, refused, now)) == {};
    } else {
      var k := |batch| - 1;
      StartedGotJob(runs, batch[..k], profiles, refused, now);
      AdmitNext(runs, batch, k, profiles, refused, now);
      assert batch[..k + 1] == batch;
      var before, id := Queue.AdmitAll(runs, batch[..k], profiles, refused, now), batch[k];
      var run := Queue.AdmitRun(runs[id], id, profiles, refused, now);
      OneMoreJob(runs, before, id, run);
    }
  }

  lemma {:induction false} StartedNone(runs: map<Id, Run>, profiles: map<string, string>, refused: set<Id>)
    ensures Started(runs, [], profiles, refused) == 0
  {
  }

  lemma {:induction false} OneMoreJob(runs: map<Id, Run>, before: map<Id, Run>, id: Id, run: Run)
    requires id in runs && runs[id].jobName.None? && id in before && before[id] == runs[id]
    ensures |GotJob(runs, before[id := run])| == |GotJob(runs, before)| + if run.jobName.Some? then 1 else 0
  {
    var more := if run.jobName.Some? then {id} else {};
    assert GotJob(runs, before[id := run]) == GotJob(runs, before) + more;
  }

  class JobReconciler {
    const cfg: Settings
    const db: Database

    constructor (cfg: Settings, db: Database)
      ensures this.cfg == cfg && this.db == db
    {
      this.cfg, this.db := cfg, db;
    }

    /** One run against what the cluster says; nothing when a question fails, and whether the row was touched. */
    method ReconcileRun(row: Run, obs: R.Observation, now: Time) returns (r: Option<Run>, touched: bool)
      ensures r == R.ReconcileRun(row, obs, cfg, now)
      ensures r.Some? ==> touched == R.Touches(row, obs, cfg, now)
      ensures r.Some? && !touched ==> r.value == row
    {
      var run := row;
      var cancelPending := run.cancelRequestedAt.Some?;
      if obs.phase.None? {
        return None, false;
      }
      if obs.phase.value == R.JobSucceeded {
        run := run.(finishedAt := R.OrNow(run.finishedAt, now));
        if !IsTerminal(run.status) {
          run := run.(status := Success);
        }
        return Some(run), true;
      }
      if obs.phase.value == R.JobFailed {
        run := run.(status := if cancelPending then Cancelled else Failed);
        run := run.(finishedAt := R.OrNow(run.finishedAt, now));
        if run.finishCode.None? {
          if obs.diagnostic.None? {
            return None, false;
          }
          var diagnostic := obs.diagnostic.value.GetOr("");
          run := run.(finishCode := Some(if cancelPending then R.CODE_CANCELLED else R.CODE_FAILED));
          run := run.(finishMessage := Some(if diagnostic != "" then diagnostic else "Kubernetes Job failed."));
        }
        return Some(run), true;
      }
      if obs.phase.value == R.JobMissing {
        run := run.(status := if cancelPending then Cancelled else Failed);
        run := run.(finishedAt := R.OrNow(run.finishedAt, now));
        if run.finishCode.None? {
          run := run.(finishCode := Some(if cancelPending then R.CODE_CANCELLED else R.CODE_MISSING));
          run := run.(finishMessage := Some("Kubernetes Job no longer exists."));
        }
        return Some(run), true;
      }
      if cancelPending {
        if now - run.cancelRequestedAt.value >= cfg.cancelGrace {
          run := run.(status := Cancelled, finishedAt := Some(now));
          run := run.(finishCode := Some(R.CODE_CANCELLED));
          run := run.(finishMessage := Some("Run cancelled; Kubernetes Job removed after grace period."));
          return Some(run), true;
        }
        return Some(run), false;
      }
      if R.IsStuck(run, cfg, now) {
        if obs.diagnostic.None? {
          return None, false;
        }
        run := run.(status := Failed, finishedAt := Some(now));
        run := run.(finishCode := Some(R.CODE_STUCK));
        run := run.(finishMessage := Some(R.StuckMessage(obs.diagnostic.value)));
        return Some(run), true;
      }
      return Some(run), false;
    }

    /** A tick over all runs with a Job, and how many rows it touched; one failing question undoes it and is raised. */
    method ReconcileOnce(seen: Id -> R.Observation, now: Time) returns (r: Outcome<nat>)
      modifies db`runs
      ensures db.runs == if R.TickSucceeds(old(db.runs), seen, cfg, now)
                         then R.ReconcileAll(old(db.runs), seen, cfg, now) else old(db.runs)
      ensures r == if R.TickSucceeds(old(db.runs), seen, cfg, now)
                   then Returned(|R.Touched(old(db.runs), seen, cfg, now)|) else Failure(ClusterFailed)
    {
      hide R.ReconcileRun, R.Touches, R.Touched, R.TickSucceeds, R.ReconcileAll, Reconciled;
      var updated := 0;
      var todo := Queue.Active(db.runs);
      var rows := db.runs;
      NoneDone(db.runs, seen, cfg, now);
      while todo != {}
        invariant db.runs == old(db.runs) && todo <= Queue.Active(db.runs)
        invariant Reconciled(db.runs, rows, todo, updated, seen, cfg, now)
        invariant updated == 0 ==> rows == db.runs
      {
        var id :| id in todo;
        var run, touched := ReconcileRun(db.runs[id], seen(id), now);
        if run.None? {
          OneFails(db.runs, id, seen, cfg, now);
          return Failure(ClusterFailed);
        }
        OneDone(db.runs, rows, todo, updated, id, seen, cfg, now);
        todo := todo - {id};
        if touched {
          rows := rows[id := run.value];
          updated := updated + 1;
        }
      }
      AllDone(db.runs, rows, updated, seen, cfg, now);
      if updated > 0 {
        db.runs := rows;
      }
      r := Returned(updated);
    }
  }

  /** The rows after looking at the Jobs of those runs that are no longer to do, and how many were touched. */
  ghost predicate Reconciled(
    runs: map<Id, Run>, rows: map<Id, Run>, todo: set<Id>, updated: nat,
    seen: Id -> R.Observation, cfg: Settings, now: Time)
  {
    updated == |R.Touched(runs, seen, cfg, now) - todo| && RowsDone(runs, rows, todo, seen, cfg, now)
  }

  ghost predicate RowsDone(
    runs: map<Id, Run>, rows: map<Id, Run>, todo: set<Id>, seen: Id -> R.Observation, cfg: Settings, now: Time)
  {
    && rows.Keys == runs.Keys
    && forall id | id in runs ::
         if IsActive(runs[id]) && id !in todo
         then R.ReconcileRun(runs[id], seen(id), cfg, now) == Some(rows[id])
         else rows[id] == runs[id]
  }

  lemma {:induction false} NoneDone(runs: map<Id, Run>, seen: Id -> R.Observation, cfg: Settings, now: Time)
    ensures Reconciled(runs, runs, Queue.Active(runs), 0, seen, cfg, now)
  {
    assert R.Touched(runs, seen, cfg, now) - Queue.Active(runs) == {};
  }

  lemma {:induction false} OneFails(
    runs: map<Id, Run>, id: Id, seen: Id -> R.Observation, cfg: Settings, now: Time)
    requires id in Queue.Active(runs) && R.ReconcileRun(runs[id], seen(id), cfg, now).None?
    ensures !R.TickSucceeds(runs, seen, cfg, now)
  {
    hide R.ReconcileRun;
  }

  lemma {:induction false} OneDone(
    runs: map<Id, Run>, rows: map<Id, Run>, todo: set<Id>, updated: nat, id: Id,
    seen: Id -> R.Observation, cfg: Settings, now: Time)
    requires Reconciled(runs, rows, todo, updated, seen, cfg, now) && id in todo && todo <= Queue.Active(runs)
    requires R.ReconcileRun(runs[id], seen(id), cfg, now).Some?
    ensures var run := R.ReconcileRun(runs[id], seen(id), cfg, now).value;
            var touched := R.Touches(runs[id], seen(id), cfg, now);
            && (touched ==> Reconciled(runs, rows[id := run], todo - {id}, updated + 1, seen, cfg, now))
            && (!touched && run == runs[id] ==> Reconciled(runs, rows, todo - {id}, updated, seen, cfg, now))
  {
    assert id in R.Touched(runs, seen, cfg, now) <==> R.Touches(runs[id], seen(id), cfg, now) by {
      hide R.Touches;
    }
    hide R.ReconcileRun, R.Touches, R.Touched, RowsDone;
    OneLess(R.Touched(runs, seen, cfg, now), todo, id);
    OneRow(runs, rows, todo, id, seen, cfg, now);
  }

  lemma {:induction false} OneRow(
    runs: map<Id, Run>, rows: map<Id, Run>, todo: set<Id>, id: Id,
    seen: Id -> R.Observation, cfg: Settings, now: Time)
    requires RowsDone(runs, rows, todo, seen, cfg, now) && id in todo && todo <= Queue.Active(runs)
    requires R.ReconcileRun(runs[id], seen(id), cfg, now).Some?
    ensures var run := R.ReconcileRun(runs[id], seen(id), cfg, now).value;
            && RowsDone(runs, rows[id := run], todo - {id}, seen, cfg, now)
            && (run == runs[id] ==> RowsDone(runs, rows, todo - {id}, seen, cfg, now))
  {
    hide R.ReconcileRun;
  }

  lemma {:induction false} OneLess(all: set<Id>, todo: set<Id>, id: Id)
    requires id in todo
    ensures |all - (todo - {id})| == |all - todo| + if id in all then 1 else 0
  {
    assert all - (todo - {id}) == all - todo + if id in all then {id} else {};
  }

  lemma {:induction false} AllDone(
    runs: map<Id, Run>, rows: map<Id, Run>, updated: nat, seen: Id -> R.Observation, cfg: Settings, now: Time)
    requires Reconciled(runs, rows, {}, updated, seen, cfg, now)
    ensures R.TickSucceeds(runs, seen, cfg, now) && rows == R.ReconcileAll(runs, seen, cfg, now)
    ensures updated == |R.Touched(runs, seen, cfg, now)|
  {
    hide R.ReconcileRun, R.Touches;
    assert R.Touched(runs, seen, cfg, now) - {} == R.Touched(runs, seen, cfg, now);
  }
}
