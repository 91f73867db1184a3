/** First come, first served: who leaves the queue at a tick, and who is passed over. */
module Fairness {
  import opened Capacity
  import opened Effects
  import opened Lifecycle
  import opened Operator
  import opened Options
  import opened Records
  import Ordering
  import Queue

  predicate Waits(s: Store, id: Id) {
    id in s.runs && IsWaiting(s.runs[id])
  }

  predicate HasJob(s: Store, id: Id) {
    id in s.runs && s.runs[id].jobName.Some?
  }

  /** A tick in which `b` gets a Job while `a` stays in the queue: the row or the Job of `a` was not to be had. */
  predicate PassedOver(u: Setup, y: System, e: Event, a: Id, b: Id)
    requires Enabled(y, e)
  {
    && e.AdmitTick? && (a in e.refused || a in e.locked)
    && Waits(y.store, a) && Waits(y.store, b) && HasJob(StoreAfter(u, y, e), b)
  }

  /** In one tick, a run that leaves the queue leaves behind only such earlier ones as could not be started. */
  lemma {:induction false} TickInOrder(u: Setup, y: System, e: Event, a: Id, b: Id)
    requires Enabled(y, e) && e.AdmitTick? && Waits(y.store, a) && Waits(y.store, b)
    requires Queue.CreatedBefore(y.store.runs, a, b)
    requires Waits(StoreAfter(u, y, e), a) && !Waits(StoreAfter(u, y, e), b)
    ensures a in e.refused || a in e.locked
  {
    var runs := y.store.runs;
    var key, waiting := Queue.ByCreation(runs), Queue.Waiting(runs, e.locked);
    assert Ordering.Before(key, a, b);
    assert b in Queue.Batch(runs, u.cfg, e.locked);
    if a !in e.locked {
      assert a in waiting;
      match Queue.FreeSlots(runs, u.cfg)
      case None => assert a in Queue.Batch(runs, u.cfg, e.locked);
      case Some(n) => Ordering.LimitTakesFirst(key, waiting, n, a, b);
    }
  }

  /**
   * A run's turn comes when it waits in a row that is free and fewer runs that do so were created before it than there
   * are slots left: the limit less the runs that hold a Job, or no bound where no limit is set.
   */
  predicate ItsTurn(runs: map<Id, Run>, cfg: Settings, locked: set<Id>, id: Id) {
    var waiting := set x | x in runs && runs[x].status == Queued && runs[x].jobName.None? && x !in locked;
    var holding := set x | x in runs && runs[x].jobName.Some? && !IsTerminal(runs[x].status);
    && id in waiting
    && (cfg.maxConcurrentRuns > 0 ==>
          |set x | x in waiting && Queue.CreatedBefore(runs, x, id)| < cfg.maxConcurrentRuns - |holding|)
  }

  lemma {:induction false} TakenUp(runs: map<Id, Run>, cfg: Settings, locked: set<Id>, id: Id)
    ensures id in Queue.Batch(runs, cfg, locked) <==> ItsTurn(runs, cfg, locked, id)
  {
    var key, waiting := Queue.ByCreation(runs), Queue.Waiting(runs, locked);
    assert waiting == set x | x in runs && runs[x].status == Queued && runs[x].jobName.None? && x !in locked;
    assert Queue.Active(runs) == set x | x in runs && runs[x].jobName.Some? && !IsTerminal(runs[x].status);
    if id in waiting {
      assert (set x | x in waiting && Queue.CreatedBefore(runs, x, id)) ==
             (set x | x in waiting && Ordering.Before(key, x, id));
    }
    match Queue.FreeSlots(runs, cfg)
    case None =>
    case Some(n) => Ordering.LimitCounts(key, waiting, n, id);
  }

  /**
   * Where Jobs are created, a tick gives each run whose turn has come a Job of its name, unless the cluster refuses it,
   * and fails one whose profile is gone. Every other run, and everything else, stays as it was.
   */
  lemma {:induction false} AdmitOutcome(u: Setup, y: System, e: Event, id: Id)
    requires Enabled(y, e) && e.AdmitTick? && id in y.store.runs
    ensures var s, t, now := y.store, StoreAfter(u, y, e), y.clock;
            var turn := u.cfg.jobCreationEnabled && ItsTurn(s.runs, u.cfg, e.locked, id);
            var lost := s.runs[id].profileId !in s.profiles;
            && t == s.(runs := t.runs) && t.runs.Keys == s.runs.Keys
            && (turn && lost ==> t.runs[id] == s.runs[id].(status := Failed, finishedAt := Some(now)))
            && (turn && !lost && id !in e.refused ==>
                  t.runs[id] == s.runs[id].(status := NotStarted, jobName := Some(JobName(id)),
                                            statusUpdatedAt := Some(now)))
            && (!turn || (!lost && id in e.refused) ==> t.runs[id] == s.runs[id])
  {
    hide Queue.Batch, ItsTurn, JobName;
    TakenUp(y.store.runs, u.cfg, e.locked, id);
  }

  /** The order of the queue never changes. */
  lemma {:induction false} OrderKept(before: map<Id, Run>, after: map<Id, Run>, a: Id, b: Id)
    requires a in before && b in before && a in after && b in after
    requires SameOrigin(before[a], after[a]) && SameOrigin(before[b], after[b])
    requires Queue.CreatedBefore(before, a, b)
    ensures Queue.CreatedBefore(after, a, b)
  {
  }

  /** A run that waits after an event that delivers nothing to it was waiting before. */
  lemma {:induction false} WaitedBefore(u: Setup, y: System, e: Event, id: Id)
    requires Sound(y) && AllSane(y.store.runs) && Enabled(y, e) && id in y.store.runs
    requires !(e.DeliverStatus? && e.id == id) && Waits(StoreAfter(u, y, e), id)
    ensures Waits(y.store, id)
  {
    hide StoreAfter, RunAfter, SameOrigin;
    WasThere(u, y, e, id);
    RunKeeps(u, y, e, id);
  }

  /** The step at which the later run gets its Job. */
  lemma {:induction false} JobInOrder(u: Setup, y: System, e: Event, a: Id, b: Id)
    requires Sound(y) && AllSane(y.store.runs) && Enabled(y, e)
    requires Waits(y.store, a) && b in y.store.runs && Queue.CreatedBefore(y.store.runs, a, b)
    requires Waits(StoreAfter(u, y, e), a)
    requires !HasJob(y.store, b) && HasJob(StoreAfter(u, y, e), b)
    ensures PassedOver(u, y, e, a, b)
  {
    hide StoreAfter, RunAfter, SameOrigin, Queue.CreatedBefore;
    WasThere(u, y, e, b);
    RunKeeps(u, y, e, b);
    TickInOrder(u, y, e, a, b);
  }

  predicate PassedOverAt(u: Setup, y: System, events: seq<Event>, i: nat, a: Id, b: Id)
    requires Possible(u, y, events)
  {
    i < |events| && Possible(u, y, events[..i]) && Enabled(After(u, y, events[..i]), events[i])
    && PassedOver(u, After(u, y, events[..i]), events[i], a, b)
  }

  /** The run waits at every point of a sequence of events. */
  predicate AlwaysWaits(u: Setup, y: System, events: seq<Event>, id: Id)
    requires Possible(u, y, events)
    decreases |events|
  {
    Waits(After(u, y, events).store, id) && (events == [] || AlwaysWaits(u, y, events[..|events| - 1], id))
  }

  /** A run that waits in the end and is delivered nothing has waited all the time it was there. */
  lemma {:induction false} UndeliveredWaits(u: Setup, y: System, events: seq<Event>, id: Id)
    requires Sound(y) && AllSane(y.store.runs) && Possible(u, y, events) && id in y.runIds
    requires Waits(After(u, y, events).store, id) && !Delivered(events, id)
    ensures AlwaysWaits(u, y, events, id)
    decreases |events|
  {
    if events != [] {
      LastStep(u, y, events);
      hide AllSane, StoreAfter, RunAfter, Delivered, Enabled, After, Possible, Waits;
      var n := |events| - 1;
      var before, e, z := events[..n], events[n], After(u, y, events[..n]);
      AfterSound(u, y, before);
      AlwaysSane(u, y, before);
      DeliveredGrows(events, id);
      assert id in StoreAfter(u, z, e).runs by { WaitingIsThere(StoreAfter(u, z, e), id); }
      WasThere(u, z, e, id);
      WaitedBefore(u, z, e, id);
      UndeliveredWaits(u, y, before, id);
    }
  }

  lemma {:induction false} WaitingIsThere(s: Store, id: Id)
    requires Waits(s, id)
    ensures id in s.runs
  {
  }

  /**
   * Over any sequence of events in which an earlier run waits all the time: when a later one has got its Job, some tick
   * in between gave it that because the Job of the earlier one was refused or its row was locked.
   */
  lemma {:induction false} FirstComeFirstServed(u: Setup, y: System, events: seq<Event>, a: Id, b: Id)
    requires Sound(y) && AllSane(y.store.runs) && Possible(u, y, events) && AlwaysWaits(u, y, events, a)
    requires a in y.store.runs && b in y.store.runs && Queue.CreatedBefore(y.store.runs, a, b)
    requires !HasJob(y.store, b) && HasJob(After(u, y, events).store, b)
    ensures exists i :: PassedOverAt(u, y, events, i, a, b)
    decreases |events|
  {
    hide AllSane, StoreAfter, Enabled, PassedOverAt, Waits, HasJob, Queue.CreatedBefore;
    assert events != [];
    var n := |events| - 1;
    var before, z := events[..n], After(u, y, events[..n]);
    if HasJob(z.store, b) {
      FirstComeFirstServed(u, y, before, a, b);
      var i :| PassedOverAt(u, y, before, i, a, b);
      StillPassedOver(u, y, events, i, a, b);
    } else {
      PassedOverLast(u, y, events, a, b);
      PassedOverNow(u, y, events, a, b);
    }
  }

  /** The last event is the one that passes the earlier run over. */
  lemma {:induction false} PassedOverLast(u: Setup, y: System, events: seq<Event>, a: Id, b: Id)
    requires Sound(y) && AllSane(y.store.runs) && Possible(u, y, events) && events != []
    requires AlwaysWaits(u, y, events, a)
    requires a in y.store.runs && b in y.store.runs && Queue.CreatedBefore(y.store.runs, a, b)
    requires HasJob(After(u, y, events).store, b) && !HasJob(After(u, y, events[..|events| - 1]).store, b)
    ensures var n := |events| - 1; PassedOver(u, After(u, y, events[..n]), events[n], a, b)
  {
    var n := |events| - 1;
    var before, e, z := events[..n], events[n], After(u, y, events[..n]);
    LastStep(u, y, events);
    assert Waits(z.store, a) && Waits(StoreAfter(u, z, e), a);
    hide AllSane, StoreAfter, RunAfter, Queue.CreatedBefore, PassedOver, Follows, AlwaysWaits, After,
         Possible, Enabled;
    AfterSound(u, y, before);
    AlwaysSane(u, y, before);
    WasThere(u, z, e, b);
    HistoryOfRun(u, y, before, a);
    HistoryOfRun(u, y, before, b);
    SameOriginOf(y.store.runs[a], z.store.runs[a]);
    SameOriginOf(y.store.runs[b], z.store.runs[b]);
    OrderKept(y.store.runs, z.store.runs, a, b);
    JobInOrder(u, z, e, a, b);
  }

  lemma {:induction false} SameOriginOf(before: Run, after: Run)
    requires Follows(before, after)
    ensures SameOrigin(before, after)
  {
  }

  lemma {:induction false} StillPassedOver(u: Setup, y: System, events: seq<Event>, i: nat, a: Id, b: Id)
    requires Possible(u, y, events) && events != []
    requires PassedOverAt(u, y, events[..|events| - 1], i, a, b)
    ensures PassedOverAt(u, y, events, i, a, b)
  {
    hide Enabled, PassedOver;
    var before := events[..|events| - 1];
    assert before[..i] == events[..i] && before[i] == events[i];
  }

  lemma {:induction false} PassedOverNow(u: Setup, y: System, events: seq<Event>, a: Id, b: Id)
    requires Possible(u, y, events) && events != []
    requires var n := |events| - 1; PassedOver(u, After(u, y, events[..n]), events[n], a, b)
    ensures PassedOverAt(u, y, events, |events| - 1, a, b)
  {
  }

  // ---------- how many leave

  /** How many waiting runs one tick takes up. */
  function Served(runs: map<Id, Run>, cfg: Settings): nat {
    var waiting := |Queue.Waiting(runs, {})|;
    match Queue.FreeSlots(runs, cfg)
    case None => waiting
    case Some(free) => if free < waiting then free else waiting
  }

  lemma {:induction false} DistinctElements(list: seq<Id>)
    requires Ordering.Distinct(list)
    ensures |Elements(list)| == |list|
  {
    if list != [] {
      DistinctElements(list[..|list| - 1]);
    }
  }

  lemma {:induction false} BatchSize(runs: map<Id, Run>, cfg: Settings)
    ensures |Elements(Queue.Batch(runs, cfg, {}))| == Served(runs, cfg)
    ensures Elements(Queue.Batch(runs, cfg, {})) <= Queue.Waiting(runs, {})
  {
    hide Queue.Waiting, Queue.FreeSlots, Elements, Ordering.Before;
    var list := Ordering.Sorted(Queue.ByCreation(runs), Queue.Waiting(runs, {}));
    Ordering.OrderedDistinct(Queue.ByCreation(runs), list);
    DistinctElements(Queue.Batch(runs, cfg, {}));
  }

  /**
   * A tick that finds every row free and is refused no Job takes exactly the smaller of the free slots and the
   * waiting runs out of the queue, each with its Job, or failed when its profile is gone.
   */
  lemma {:induction false} TickDrains(u: Setup, y: System, e: Event)
    requires Enabled(y, e) && u.cfg.jobCreationEnabled && e == AdmitTick({}, {})
    ensures var before, after := y.store.runs, StoreAfter(u, y, e).runs;
            var left := Queue.Waiting(before, {}) - Queue.Waiting(after, {});
            && Queue.Waiting(after, {}) <= Queue.Waiting(before, {}) && |left| == Served(before, u.cfg)
            && forall id | id in left ::
                 if before[id].profileId in y.store.profiles
                 then after[id].jobName == Some(JobName(id)) && after[id].status == NotStarted
                 else after[id].jobName.None? && after[id].status == Failed
  {
    hide Queue.Batch, Elements, JobName;
    var before, after := y.store.runs, StoreAfter(u, y, e).runs;
    var batch := Queue.Batch(before, u.cfg, {});
    BatchSize(before, u.cfg);
    assert Queue.Waiting(before, {}) - Queue.Waiting(after, {}) == Elements(batch);
  }
}
