/** The limit on concurrent Jobs, over every sequence of events. */
module Capacity {
  import opened Effects
  import opened Lifecycle
  import opened Operator
  import opened Options
  import opened Records
  import Queue
  import Reconciler
  import Runs

  /** A delivery that makes a finished run with a Job unfinished again. */
  predicate Revives(y: System, e: Event) {
    && e.DeliverStatus? && e.id in y.store.runs
    && y.store.runs[e.id].jobName.Some? && IsTerminal(y.store.runs[e.id].status)
    && !IsTerminal(Runs.ApplyStatus(y.store.runs[e.id], e.report, y.clock).status)
  }

  function Revivals(u: Setup, y: System, events: seq<Event>): nat
    requires Possible(u, y, events)
    decreases |events|
  {
    if events == [] then 0
    else
      var n := |events| - 1;
      Revivals(u, y, events[..n]) + if Revives(After(u, y, events[..n]), events[n]) then 1 else 0
  }

  function Elements(list: seq<Id>): (s: set<Id>)
    ensures |s| <= |list|
    ensures forall x :: x in s <==> x in list
  {
    if list == [] then {} else Elements(list[..|list| - 1]) + {list[|list| - 1]}
  }

  lemma {:induction false} SmallerSet(a: set<Id>, b: set<Id>)
    requires a <= b
    ensures |a| <= |b|
  {
    assert b == a + (b - a);
  }

  /** The rows an event can give a Job slot to. */
  function Entering(u: Setup, y: System, e: Event): set<Id> {
    if e.AdmitTick? then Elements(Queue.Batch(y.store.runs, u.cfg, e.locked))
    else if Revives(y, e) then {e.id}
    else {}
  }

  /** A run takes up a slot only when a tick admits it or a delivery revives it. */
  lemma {:induction false} SlotsTaken(u: Setup, y: System, e: Event)
    requires Sound(y) && AllSane(y.store.runs) && Enabled(y, e) && u.cfg.queueEnabled
    ensures Queue.Active(StoreAfter(u, y, e).runs) <= Queue.Active(y.store.runs) + Entering(u, y, e)
  {
    hide StoreAfter, RunAfter, Elements, Queue.Batch, AllSane, JobName, Revives;
    RunsOfStep(u, y, e);
    var runs := StoreAfter(u, y, e).runs;
    forall id | id in Queue.Active(runs)
      ensures id in Queue.Active(y.store.runs) + Entering(u, y, e)
    {
      if id in y.store.runs { SlotTaken(u, y, e, id); }
    }
  }

  lemma {:induction false} SlotTaken(u: Setup, y: System, e: Event, id: Id)
    requires AllSane(y.store.runs) && id in y.store.runs && IsActive(RunAfter(u, y, e, id))
    ensures id in Queue.Active(y.store.runs) + Entering(u, y, e)
  {
    hide Runs.ApplyStatus, Runs.ApplyUpload, Queue.Batch, Reconciler.ReconcileRun, JobName, Elements;
    RunKeeps(u, y, e, id);
    if e.DeliverStatus? && e.id == id { DeliveryKeeps(y.store.runs[id], e.report, y.clock, id); }
  }

  /** A tick admits no more runs than slots are free, and none at or above the limit. */
  lemma {:induction false} AdmitWithinLimit(runs: map<Id, Run>, cfg: Settings, locked: set<Id>)
    requires cfg.maxConcurrentRuns > 0
    ensures var batch, active := Queue.Batch(runs, cfg, locked), |Queue.Active(runs)|;
            && (active >= cfg.maxConcurrentRuns ==> batch == [])
            && (active < cfg.maxConcurrentRuns ==> active + |batch| <= cfg.maxConcurrentRuns)
  {
    hide Queue.Active, Queue.Waiting;
  }

  lemma {:induction false} StepCapacity(u: Setup, y: System, e: Event)
    requires Sound(y) && AllSane(y.store.runs) && Enabled(y, e)
    requires u.cfg.queueEnabled && u.cfg.maxConcurrentRuns > 0
    ensures var before, after := |Queue.Active(y.store.runs)|, |Queue.Active(StoreAfter(u, y, e).runs)|;
            after <= (if e.AdmitTick? then Max(before, u.cfg.maxConcurrentRuns) else before)
                     + if Revives(y, e) then 1 else 0
  {
    hide StoreAfter, Queue.Active, Queue.Batch, AllSane, Sound, Revives, Enabled;
    var before, entering := Queue.Active(y.store.runs), Entering(u, y, e);
    SlotsTaken(u, y, e);
    SmallerSet(Queue.Active(StoreAfter(u, y, e).runs), before + entering);
    assert |before + entering| <= |before| + |entering|;
    if e.AdmitTick? { AdmitWithinLimit(y.store.runs, u.cfg, e.locked); NotRevived(y, e); }
  }

  function Max(a: int, b: int): int {
    if a < b then b else a
  }

  lemma {:induction false} NotRevived(y: System, e: Event)
    requires e.AdmitTick?
    ensures !Revives(y, e)
  {
  }

  /** Each revival takes a slot beyond whatever is taken, so the plain limit does not survive one at a full house. */
  lemma {:induction false} RevivalTakesSlot(u: Setup, y: System, e: Event)
    requires Enabled(y, e) && Revives(y, e)
    ensures |Queue.Active(StoreAfter(u, y, e).runs)| == |Queue.Active(y.store.runs)| + 1
  {
    var run := Runs.ApplyStatus(y.store.runs[e.id], e.report, y.clock);
    DeliveryKeepsJob(y.store.runs[e.id], e.report, y.clock);
    hide Runs.ApplyStatus;
    assert StoreAfter(u, y, e).runs == y.store.runs[e.id := run];
    hide StoreAfter;
    OneMoreActive(y.store.runs, e.id, run);
  }

  lemma {:induction false} OneMoreActive(runs: map<Id, Run>, id: Id, run: Run)
    requires id in runs && !IsActive(runs[id]) && IsActive(run)
    ensures |Queue.Active(runs[id := run])| == |Queue.Active(runs)| + 1
  {
    hide IsActive;
    assert Queue.Active(runs[id := run]) == Queue.Active(runs) + {id};
  }

  lemma {:induction false} DeliveryKeepsJob(run: Run, report: Runs.StatusReport, now: Time)
    ensures Runs.ApplyStatus(run, report, now).jobName == run.jobName
  {
  }

  /**
   * With the queue on and a limit set, the runs that hold a Job never number more than the limit, or than at the
   * start, plus the finished runs that deliveries revived since; without revivals the plain limit holds.
   */
  lemma {:induction false} ConcurrencyBound(u: Setup, y: System, events: seq<Event>)
    requires Sound(y) && AllSane(y.store.runs) && Possible(u, y, events)
    requires u.cfg.queueEnabled && u.cfg.maxConcurrentRuns > 0
    ensures |Queue.Active(After(u, y, events).store.runs)|
            <= Max(|Queue.Active(y.store.runs)|, u.cfg.maxConcurrentRuns) + Revivals(u, y, events)
    decreases |events|
  {
    hide Queue.Active, AllSane, Sound, StoreAfter, Enabled, Revives;
    if events != [] {
      var n := |events| - 1;
      ConcurrencyBound(u, y, events[..n]);
      AfterSound(u, y, events[..n]);
      AlwaysSane(u, y, events[..n]);
      StepCapacity(u, After(u, y, events[..n]), events[n]);
    }
  }
}
