/** What holds in every state the operator can get into from empty tables. */
module Reachable {
  import opened Agreement
  import opened Capacity
  import opened Dispatch
  import opened Lifecycle
  import opened Operator
  import opened Progress
  import opened Roots
  import Queue

  lemma {:induction false} InitiallyGood(u: Setup, y: System)
    requires Initial(y)
    ensures Sound(y) && AllSane(y.store.runs) && RunsAgree(y.store) && Rooted(y) && SchedulesAgree(y.store)
    ensures AllStored(y.store) && AllInTime(y, u.cfg)
    ensures Orderly(u, y) && Queue.Active(y.store.runs) == {}
  {
  }

  /**
   * From empty tables on: runs are sane, agree with what is stored for them and carry the root of their chain;
   * schedules agree as long as no update breaks that, and none does where an interval is set and all updates are
   * committed; something is stored for every row unless a deletion is interrupted; no run is past its time, the
   * dispatcher is orderly, and the limit holds but for revived runs.
   */
  lemma {:induction false} EveryReachableState(u: Setup, y: System, events: seq<Event>)
    requires Initial(y) && Possible(u, y, events) && LawfulCalendar(u.cal)
    ensures var z := After(u, y, events);
            && Sound(z) && AllSane(z.store.runs) && RunsAgree(z.store) && Rooted(z) && AllInTime(z, u.cfg)
            && Orderly(u, z)
            && (AlwaysAgree(u, y, events) <==> !BreaksSome(u, y, events))
            && (u.cfg.minInterval > 0 && ZonesAgree(u.cal) && UpdatesCommitted(events) ==> !BreaksSome(u, y, events))
            && ((forall e | e in events :: !Interrupted(e)) ==> AllStored(z.store))
            && (u.cfg.queueEnabled && u.cfg.maxConcurrentRuns > 0 ==>
                  |Queue.Active(z.store.runs)| <= u.cfg.maxConcurrentRuns + Revivals(u, y, events))
  {
    hide Initial, Possible, After, Sound, AllSane, RunsAgree, Rooted, SchedulesAgree, AllInTime, Orderly,
         LawfulCalendar, Queue.Active, ZonesAgree, AllStored, AlwaysAgree, BreaksSome, Interrupted, UpdatesCommitted;
    InitiallyGood(u, y);
    AfterSound(u, y, events);
    AlwaysSane(u, y, events);
    RunsAlwaysAgree(u, y, events);
    ChainsKeepTheirRoot(u, y, events);
    AlwaysInTime(u, y, events);
    AlwaysOrderly(u, y, events);
    SchedulesAlwaysAgree(u, y, events);
    if u.cfg.minInterval > 0 && ZonesAgree(u.cal) && UpdatesCommitted(events) { CommittedBreakNone(u, y, events); }
    if forall e | e in events :: !Interrupted(e) { InputsAlwaysStored(u, y, events); }
    if u.cfg.queueEnabled && u.cfg.maxConcurrentRuns > 0 { ConcurrencyBound(u, y, events); }
  }
}
