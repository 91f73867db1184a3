/** The queue worker: one tick admits waiting runs, oldest first, while Job slots are free. */
module Queue {
  import opened Options
  import opened Records
  import Ordering

  function Active(runs: map<Id, Run>): set<Id> {
    set id | id in runs && IsActive(runs[id])
  }

  /** Free slots, or None when the number of runs is not limited. */
  function FreeSlots(runs: map<Id, Run>, cfg: Settings): Option<nat> {
    if cfg.maxConcurrentRuns <= 0 then None
    else if |Active(runs)| >= cfg.maxConcurrentRuns then Some(0)
    else Some(cfg.maxConcurrentRuns - |Active(runs)|)
  }

  function Waiting(runs: map<Id, Run>, locked: set<Id>): set<Id> {
    set id | id in runs && IsWaiting(runs[id]) && id !in locked
  }

  /** Runs come in the order they were created in; those of one instant in the order of their ids. */
  predicate CreatedBefore(runs: map<Id, Run>, a: Id, b: Id)
    requires a in runs && b in runs
  {
    runs[a].createdAt < runs[b].createdAt || (runs[a].createdAt == runs[b].createdAt && a < b)
  }

  /** First come, first served. */
  function ByCreation(runs: map<Id, Run>): Ordering.Key {
    id => if id in runs then (runs[id].createdAt, 0) else (0, 0)
  }

  /** The runs a tick takes up, in order. */
  function Batch(runs: map<Id, Run>, cfg: Settings, locked: set<Id>): (ids: seq<Id>)
    ensures forall id | id in ids :: id in Waiting(runs, locked)
  {
    var list := Ordering.Sorted(ByCreation(runs), Waiting(runs, locked));
    match FreeSlots(runs, cfg)
    case None => list
    case Some(n) => Ordering.Limited(list, n)
  }

  /** One run of the batch: failed without its profile, left alone if its Job is refused, admitted otherwise. */
  function AdmitRun(run: Run, id: Id, profiles: map<string, string>, refused: set<Id>, now: Time): Run {
    if run.profileId !in profiles then run.(status := Failed, finishedAt := Some(now))
    else if id in refused then run
    else run.(jobName := Some(JobName(id)), status := NotStarted, statusUpdatedAt := Some(now))
  }

  /** All runs after a tick. */
  function AdmitAll(
    runs: map<Id, Run>, batch: seq<Id>, profiles: map<string, string>, refused: set<Id>, now: Time): map<Id, Run>
  {
    map id | id in runs :: if id in batch then AdmitRun(runs[id], id, profiles, refused, now) else runs[id]
  }

  function Admit(s: Store, cfg: Settings, locked: set<Id>, refused: set<Id>, now: Time): Store {
    if !cfg.jobCreationEnabled then s
    else s.(runs := AdmitAll(s.runs, Batch(s.runs, cfg, locked), s.profiles, refused, now))
  }
}
