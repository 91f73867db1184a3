/** Skip means no overlap: a schedule never has two unfinished runs or claims at once. */
module SkipPolicy {
  import opened Dispatch
  import opened Capacity
  import opened Effects
  import opened Lifecycle
  import opened Operator
  import opened Options
  import opened Progress
  import opened Records
  import D = Dispatcher
  import Runs
  import Schedules

  /** The unfinished runs a schedule has started. */
  function Unfinished(runs: map<Id, Run>, schedule: Id): set<Id> {
    set id | id in runs && runs[id].triggeredBy == Some(schedule) && !IsTerminal(runs[id].status)
  }

  /** The claims of a schedule that are neither fired nor lost. */
  function Pending(y: System, schedule: Id): set<nat> {
    set i | i in y.inFlight && i < |y.claims| && y.claims[i].schedule == schedule
  }

  function Load(y: System, schedule: Id): nat {
    |Unfinished(y.store.runs, schedule)| + |Pending(y, schedule)|
  }

  predicate Skips(y: System, schedule: Id) {
    schedule in y.store.schedules ==> y.store.schedules[schedule].overlap == Skip
  }

  /**
   * The policy stays `skip`, the schedule is not fired by hand, and no delivery makes a finished run of it unfinished
   * again.
   */
  predicate PolicyKept(y: System, e: Event, schedule: Id) {
    && ((e.CreateSchedule? || e.UpdateSchedule?) && e.id == schedule ==> e.definition.overlap == Skip)
    && (e.TriggerNow? ==> e.schedule != schedule)
    && (e.DeliverStatus? && e.id in y.store.runs && y.store.runs[e.id].triggeredBy == Some(schedule) ==>
          !Reopens(y, e, e.id))
  }

  /** Whether a tick claims a schedule: it is in the batch, and neither disabled, missed nor held back. */
  predicate Claims(u: Setup, y: System, e: Event, schedule: Id) {
    && Claiming(u, y, e, schedule) && schedule in y.store.schedules
    && D.Decide(y.store.schedules[schedule], D.IsBusy(y.store.runs, schedule), u.cal, u.cfg, e.reading) == D.Claimed
  }

  /** No tick claims the schedule while a claim of it is neither fired nor lost. */
  predicate ClaimsApart(u: Setup, y: System, e: Event, schedule: Id) {
    Claims(u, y, e, schedule) ==> Pending(y, schedule) == {}
  }

  // ---------- one event

  lemma {:induction false} StepSkips(u: Setup, y: System, e: Event, schedule: Id)
    requires Enabled(y, e) && Skips(y, schedule) && PolicyKept(y, e, schedule)
    ensures Skips(Step(u, y, e), schedule)
  {
    hide StoreAfter, Step, Added, Schedules.Fire, D.Batch, D.IsBusy, Reopens;
    LogOfStep(u, y, e);
    SchedulesOfStep(u, y, e);
  }

  /** The run an event may make for a schedule. */
  function Made(y: System, e: Event, schedule: Id): set<Id> {
    if DrawnRunId(e).Some? && Trigger(y, e) == Some(schedule) then {e.id} else {}
  }

  /** The runs a schedule may have unfinished after an event. */
  lemma {:induction false} UnfinishedAfter(u: Setup, y: System, e: Event, schedule: Id)
    requires Sound(y) && AllSane(y.store.runs) && Enabled(y, e) && PolicyKept(y, e, schedule)
    ensures Unfinished(StoreAfter(u, y, e).runs, schedule)
            <= Unfinished(y.store.runs, schedule) + Made(y, e, schedule)
  {
    hide StoreAfter, RunAfter, IsNew, AllSane, Reopens, Trigger, PolicyKept;
    RunsOfStep(u, y, e);
    var runs := StoreAfter(u, y, e).runs;
    forall id | id in Unfinished(runs, schedule)
      ensures id in Unfinished(y.store.runs, schedule) + Made(y, e, schedule)
    {
      if id in y.store.runs { StillUnfinished(u, y, e, id, schedule); }
    }
  }

  lemma {:induction false} StillUnfinished(u: Setup, y: System, e: Event, id: Id, schedule: Id)
    requires AllSane(y.store.runs) && Enabled(y, e) && PolicyKept(y, e, schedule) && id in y.store.runs
    requires RunAfter(u, y, e, id).triggeredBy == Some(schedule) && !IsTerminal(RunAfter(u, y, e, id).status)
    ensures id in Unfinished(y.store.runs, schedule)
  {
    RunKeeps(u, y, e, id);
    if !(e.DeliverStatus? && e.id == id) { hide RunAfter, Reopens; } else { hide Runs.ApplyStatus; }
  }

  lemma {:induction false} PendingAfter(u: Setup, y: System, e: Event, schedule: Id)
    requires Sound(y) && Enabled(y, e) && !e.ClaimDue?
    ensures var left := Pending(Step(u, y, e), schedule);
            && left <= Pending(y, schedule)
            && (e.FireClaim? && y.claims[e.claim].schedule == schedule ==> left <= Pending(y, schedule) - {e.claim})
  {
    hide StoreAfter, Step, Added;
    LogOfStep(u, y, e);
  }

  lemma {:induction false} ClaimedIsAdded(u: Setup, y: System, e: Event, schedule: Id) returns (k: nat)
    requires Enabled(y, e) && e.ClaimDue? && Claims(u, y, e, schedule)
    ensures k < |Added(u, y, e)| && Added(u, y, e)[k].schedule == schedule
  {
    hide D.Batch, D.Decide, D.IsBusy;
    var s := y.store;
    var ids := D.ToFire(s, D.Batch(s.schedules, u.cfg, e.reading, e.locked), u.cal, u.cfg, e.reading);
    assert schedule in ids;
    k :| 0 <= k < |ids| && ids[k] == schedule;
  }

  lemma {:induction false} InFlightAfterTick(u: Setup, y: System, e: Event)
    requires Enabled(y, e) && e.ClaimDue?
    ensures Step(u, y, e).inFlight == y.inFlight + Positions(|y.claims|, |Added(u, y, e)|)
  {
    hide D.ClaimDue, NewClaims;
  }

  lemma {:induction false} AddedIsClaimed(u: Setup, y: System, e: Event, c: Claim)
    requires e.ClaimDue? && FromRow(u, y, e, c)
    ensures Claims(u, y, e, c.schedule)
  {
    hide Claiming, D.Decide, D.IsBusy, D.IsDue;
  }

  /** The claims of a schedule in the log after some more have been added. */
  lemma {:induction false} IsPending(y: System, z: System, added: seq<Claim>, schedule: Id, i: nat)
    requires z.claims == y.claims + added && z.inFlight == y.inFlight + Positions(|y.claims|, |added|)
    requires forall i | i in y.inFlight :: i < |y.claims|
    ensures i in Pending(z, schedule) <==>
            i in Pending(y, schedule) ||
              (|y.claims| <= i < |y.claims| + |added| && added[i - |y.claims|].schedule == schedule)
  {
    hide Positions;
  }

  lemma {:induction false} OneMorePending(y: System, z: System, added: seq<Claim>, schedule: Id, k: nat)
    requires z.claims == y.claims + added && z.inFlight == y.inFlight + Positions(|y.claims|, |added|)
    requires (forall i | i in y.inFlight :: i < |y.claims|) && DistinctSchedules(added)
    requires k < |added| && added[k].schedule == schedule
    ensures |Pending(z, schedule)| == |Pending(y, schedule)| + 1
  {
    var n := |y.claims|;
    forall j | 0 <= j < |added| && j != k ensures added[j].schedule != schedule {
      if j < k { assert added[j].schedule != added[k].schedule; }
    }
    assert n + k !in Pending(y, schedule);
    hide Positions, DistinctSchedules, Pending;
    forall i: nat ensures i in Pending(z, schedule) <==> i in Pending(y, schedule) + {n + k} {
      IsPending(y, z, added, schedule, i);
    }
    assert Pending(z, schedule) == Pending(y, schedule) + {n + k};
  }

  lemma {:induction false} NoMorePending(y: System, z: System, added: seq<Claim>, schedule: Id)
    requires z.claims == y.claims + added && z.inFlight == y.inFlight + Positions(|y.claims|, |added|)
    requires (forall i | i in y.inFlight :: i < |y.claims|) && forall c | c in added :: c.schedule != schedule
    ensures Pending(z, schedule) == Pending(y, schedule)
  {
    hide Positions, Pending;
    forall i: nat ensures i in Pending(z, schedule) <==> i in Pending(y, schedule) {
      IsPending(y, z, added, schedule, i);
    }
  }

  /** A tick leaves one pending claim of a schedule more exactly if it claims it. */
  lemma {:induction false} PendingAtTick(u: Setup, y: System, e: Event, schedule: Id)
    requires Sound(y) && Enabled(y, e) && e.ClaimDue?
    ensures |Pending(Step(u, y, e), schedule)| == |Pending(y, schedule)| + if Claims(u, y, e, schedule) then 1 else 0
  {
    hide Step, StoreAfter, Added, FromRow, Claims, Pending;
    LogOfStep(u, y, e);
    AddedFromRows(u, y, e);
    InFlightAfterTick(u, y, e);
    var added := Added(u, y, e);
    if Claims(u, y, e, schedule) {
      var k := ClaimedIsAdded(u, y, e, schedule);
      OneMorePending(y, Step(u, y, e), added, schedule, k);
    } else {
      forall c | c in added ensures c.schedule != schedule { AddedIsClaimed(u, y, e, c); }
      NoMorePending(y, Step(u, y, e), added, schedule);
    }
  }

  lemma {:induction false} ClaimedWhileIdle(u: Setup, y: System, e: Event, schedule: Id)
    requires Claims(u, y, e, schedule) && Skips(y, schedule)
    ensures Unfinished(y.store.runs, schedule) == {}
  {
    hide Claiming;
  }

  /**
   * A tick keeps the load at one exactly if it does not claim the schedule beside a pending claim: a claim that is not
   * fired yet is no run, so the policy does not see it.
   */
  lemma {:induction false} LoadAtTick(u: Setup, y: System, e: Event, schedule: Id)
    requires Sound(y) && Enabled(y, e) && e.ClaimDue? && Skips(y, schedule) && Load(y, schedule) <= 1
    ensures Load(Step(u, y, e), schedule) <= 1 <==> ClaimsApart(u, y, e, schedule)
  {
    hide StoreAfter, Step, Claims, Unfinished, Pending;
    LogOfStep(u, y, e);
    RunsKept(u, y, e);
    PendingAtTick(u, y, e, schedule);
    if Claims(u, y, e, schedule) { ClaimedWhileIdle(u, y, e, schedule); }
  }

  lemma {:induction false} StepLoad(u: Setup, y: System, e: Event, schedule: Id)
    requires Sound(y) && AllSane(y.store.runs) && Enabled(y, e) && PolicyKept(y, e, schedule) && Skips(y, schedule)
    requires Load(y, schedule) <= 1
    ensures Load(Step(u, y, e), schedule) <= 1 <==> ClaimsApart(u, y, e, schedule)
  {
    hide StoreAfter, Step, Unfinished, Pending, AllSane, Added, Reopens;
    if e.ClaimDue? {
      LoadAtTick(u, y, e, schedule);
    } else {
      OtherLoad(u, y, e, schedule);
    }
  }

  lemma {:induction false} OtherLoad(u: Setup, y: System, e: Event, schedule: Id)
    requires Sound(y) && AllSane(y.store.runs) && Enabled(y, e) && PolicyKept(y, e, schedule) && !e.ClaimDue?
    ensures Load(Step(u, y, e), schedule) <= Load(y, schedule)
  {
    hide StoreAfter, Step, Unfinished, Pending, AllSane, Added, Reopens;
    LogOfStep(u, y, e);
    UnfinishedAfter(u, y, e, schedule);
    PendingAfter(u, y, e, schedule);
    var z, before, pending := Step(u, y, e), Unfinished(y.store.runs, schedule), Pending(y, schedule);
    SmallerSet(Pending(z, schedule), pending);
    if Made(y, e, schedule) != {} {
      FiredIsPending(y, e, schedule);
      assert Pending(z, schedule) <= pending - {e.claim};
      SmallerSet(Pending(z, schedule), pending - {e.claim});
      SmallerSet(Unfinished(z.store.runs, schedule), before + {e.id});
    } else {
      SmallerSet(Unfinished(z.store.runs, schedule), before);
    }
  }

  lemma {:induction false} FiredIsPending(y: System, e: Event, schedule: Id)
    requires Enabled(y, e) && Trigger(y, e) == Some(schedule) && PolicyKept(y, e, schedule)
    ensures e.FireClaim? && e.claim in Pending(y, schedule)
  {
  }

  // ---------- every sequence of events

  predicate AlwaysKept(u: Setup, y: System, events: seq<Event>, schedule: Id)
    requires Possible(u, y, events)
    decreases |events|
  {
    events == [] ||
    (var n := |events| - 1;
     AlwaysKept(u, y, events[..n], schedule) && PolicyKept(After(u, y, events[..n]), events[n], schedule))
  }

  predicate AlwaysApart(u: Setup, y: System, events: seq<Event>, schedule: Id)
    requires Possible(u, y, events)
    decreases |events|
  {
    events == [] ||
    (var n := |events| - 1;
     AlwaysApart(u, y, events[..n], schedule) && ClaimsApart(u, After(u, y, events[..n]), events[n], schedule))
  }

  /** At every point of a sequence of events the schedule has at most one unfinished run or pending claim. */
  predicate AlwaysSingle(u: Setup, y: System, events: seq<Event>, schedule: Id)
    requires Possible(u, y, events)
    decreases |events|
  {
    Load(After(u, y, events), schedule) <= 1 && (events == [] || AlwaysSingle(u, y, events[..|events| - 1], schedule))
  }

  /**
   * With a fixed skip policy, no manual triggers and no revived runs, and with any number of dispatchers, a schedule
   * has at most one unfinished run or pending claim at every point exactly if no tick claims it beside a pending claim.
   */
  lemma {:induction false} NeverOverlaps(u: Setup, y: System, events: seq<Event>, schedule: Id)
    requires Sound(y) && AllSane(y.store.runs) && Skips(y, schedule) && Load(y, schedule) <= 1
    requires Possible(u, y, events) && AlwaysKept(u, y, events, schedule)
    ensures Skips(After(u, y, events), schedule)
    ensures AlwaysSingle(u, y, events, schedule) <==> AlwaysApart(u, y, events, schedule)
    decreases |events|
  {
    hide Sound, AllSane, Skips, Load, PolicyKept, ClaimsApart, Enabled, Step;
    if events != [] {
      var n := |events| - 1;
      var z := After(u, y, events[..n]);
      AfterSound(u, y, events[..n]);
      AlwaysSane(u, y, events[..n]);
      NeverOverlaps(u, y, events[..n], schedule);
      StepSkips(u, z, events[n], schedule);
      if AlwaysSingle(u, y, events[..n], schedule) {
        SingleNow(u, y, events[..n], schedule);
        StepLoad(u, z, events[n], schedule);
      }
    }
  }

  lemma {:induction false} SingleNow(u: Setup, y: System, events: seq<Event>, schedule: Id)
    requires Possible(u, y, events) && AlwaysSingle(u, y, events, schedule)
    ensures Load(After(u, y, events), schedule) <= 1
  {
  }

  // ---------- one dispatcher

  /** Claims are only made when all earlier ones are fired or lost, as one dispatcher does. */
  predicate OneDispatcher(u: Setup, y: System, events: seq<Event>)
    requires Possible(u, y, events)
    decreases |events|
  {
    events == [] ||
    (var n := |events| - 1;
     OneDispatcher(u, y, events[..n]) && (events[n].ClaimDue? ==> After(u, y, events[..n]).inFlight == {}))
  }

  lemma {:induction false} OneDispatcherKeepsApart(u: Setup, y: System, events: seq<Event>, schedule: Id)
    requires Possible(u, y, events) && OneDispatcher(u, y, events)
    ensures AlwaysApart(u, y, events, schedule)
    decreases |events|
  {
    hide Enabled, Step, D.Decide, D.IsBusy, D.Batch;
    if events != [] { OneDispatcherKeepsApart(u, y, events[..|events| - 1], schedule); }
  }

  /** With one dispatcher a schedule therefore never has two, also between claiming and firing. */
  lemma {:induction false} OneDispatcherNeverOverlaps(u: Setup, y: System, events: seq<Event>, schedule: Id)
    requires Sound(y) && AllSane(y.store.runs) && Skips(y, schedule) && Load(y, schedule) <= 1
    requires Possible(u, y, events) && AlwaysKept(u, y, events, schedule) && OneDispatcher(u, y, events)
    ensures AlwaysSingle(u, y, events, schedule)
  {
    hide Sound, AllSane, Skips, Load, Possible, After;
    NeverOverlaps(u, y, events, schedule);
    OneDispatcherKeepsApart(u, y, events, schedule);
  }
}
