/** What the runs of a chain of retries have in common, whichever of them are still there. */
module Roots {
  import opened Agreement
  import opened Effects
  import opened Lifecycle
  import opened Operator
  import opened Options
  import opened Records
  import D = Dispatcher
  import Reconciler
  import Schedules

  /**
   * A run shows what the first run of its chain stored, with its profile and template, and carries it as long as its
   * input is there; a retry has the root of the run it retries, also when that is gone.
   */
  predicate CarriesRoot(y: System, id: Id)
    requires id in y.store.runs
  {
    var run := y.store.runs[id];
    && id in y.roots && run.pipeline == Masked(y.roots[id].pipeline)
    && (id in y.store.inputs ==> y.store.inputs[id].pipeline == y.roots[id].pipeline)
    && run.profileId == y.roots[id].profileId && run.templateId == y.roots[id].templateId
    && (run.retryOf.Some? ==> run.retryOf.value in y.roots && y.roots[id] == y.roots[run.retryOf.value])
  }

  predicate Rooted(y: System) {
    y.roots.Keys <= y.runIds && forall id | id in y.store.runs :: CarriesRoot(y, id)
  }

  // ---------- one event

  /** The run a step retries, if it makes a run at all. */
  function Retried(e: Event): Option<Id> {
    if e.RetryRun? then Some(e.parent) else None
  }

  lemma {:induction false} RetriedOf(u: Setup, y: System, e: Event)
    requires Enabled(y, e) && MakesRun(e) && e.id !in y.store.runs && e.id in StoreAfter(u, y, e).runs
    ensures StoreAfter(u, y, e).runs[e.id].retryOf == Retried(e)
  {
    hide Runs.CreateRun, Runs.Retry, Schedules.ApplyFireResult;
    var s, cfg, now := y.store, u.cfg, y.clock;
    match e
    case CreateRun(request, id, world) => CreatedAnew(s, cfg, request, id, None, now, world);
    case RetryRun(parent, retry, id, stateOk, world) => RetriedFrom(s, cfg, parent, retry, id, now, stateOk, world);
    case TriggerNow(schedule, id, world, _) => FiredAnew(s, cfg, schedule, id, now, world);
    case FireClaim(claim, id, world, _) => FiredAnew(s, cfg, y.claims[claim].schedule, id, now, world);
  }

  lemma {:induction false} CreatedAnew(
    s: Store, cfg: Settings, req: RunRequest, id: Id, trigger: Option<Id>, now: Time, world: World)
    ensures var t := Runs.CreateRun(s, cfg, req, id, trigger, now, world).store;
            id !in s.runs && id in t.runs ==> t.runs[id].retryOf == None
  {
    hide JobName, Masked, GivenOr;
  }

  lemma {:induction false} RetriedFrom(
    s: Store, cfg: Settings, parent: Id, req: Runs.RetryRequest, id: Id, now: Time, stateOk: bool, world: World)
    ensures var t := Runs.Retry(s, cfg, parent, req, id, now, stateOk, world).store;
            id !in s.runs && id in t.runs ==> t.runs[id].retryOf == Some(parent)
  {
    hide JobName, Masked, GivenOr;
  }

  lemma {:induction false} FiredAnew(s: Store, cfg: Settings, schedule: Id, id: Id, now: Time, world: World)
    ensures schedule in s.schedules ==>
              var t := Schedules.Fire(s, cfg, schedule, id, now, world).store;
              id !in s.runs && id in t.runs ==> t.runs[id].retryOf == None
  {
    hide Runs.CreateRun;
    if schedule in s.schedules && schedule in s.inputs {
      var row := s.schedules[schedule];
      var req := RunRequest(row.profileId, s.inputs[schedule].pipeline, row.envVars, row.pdeImage, row.templateId);
      CreatedAnew(s, cfg, req, id, Some(schedule), now, world);
    }
  }

  lemma {:induction false} OriginKept(u: Setup, y: System, e: Event, id: Id)
    requires Sound(y) && AllSane(y.store.runs) && Enabled(y, e)
    requires id in y.store.runs && id in StoreAfter(u, y, e).runs
    ensures SameOrigin(y.store.runs[id], StoreAfter(u, y, e).runs[id])
  {
    hide StoreAfter, RunAfter, SameOrigin, IsNew;
    RunsOfStep(u, y, e);
    RunKeeps(u, y, e, id);
  }

  /** Roots are only added, under the id an event draws. */
  lemma {:induction false} RootsGrow(u: Setup, y: System, e: Event)
    requires Sound(y) && Enabled(y, e) && y.roots.Keys <= y.runIds
    ensures var z := Step(u, y, e);
            && z.roots == RootsAfter(y, e, StoreAfter(u, y, e)) && z.store == StoreAfter(u, y, e)
            && z.roots.Keys <= z.runIds
            && (forall id | id in y.roots :: id in z.roots && z.roots[id] == y.roots[id])
  {
    hide StoreAfter, Firing, D.ClaimDue, Reconciler.TickSucceeds, NewClaims, Positions;
  }

  lemma {:induction false} OldRunRooted(u: Setup, y: System, e: Event, id: Id)
    requires Sound(y) && AllSane(y.store.runs) && RunsAgree(y.store) && Enabled(y, e) && Rooted(y)
    requires id in y.store.runs && id in StoreAfter(u, y, e).runs
    ensures var z := Step(u, y, e); id in z.store.runs && CarriesRoot(z, id)
  {
    hide StoreAfter, Step, RootsAfter;
    RootsGrow(u, y, e);
    OriginKept(u, y, e, id);
    InputFixedByStep(u, y, e, id);
  }

  lemma {:induction false} NewRunRooted(u: Setup, y: System, e: Event)
    requires Sound(y) && RunsAgree(y.store) && Enabled(y, e) && Rooted(y) && MakesRun(e)
    requires e.id in StoreAfter(u, y, e).runs
    ensures var z := Step(u, y, e); e.id in z.store.runs && CarriesRoot(z, e.id)
  {
    hide StoreAfter, Step, Masked;
    RootsGrow(u, y, e);
    RetriedOf(u, y, e);
    MadeRunInput(u, y, e);
  }

  lemma {:induction false} StepRooted(u: Setup, y: System, e: Event)
    requires Sound(y) && AllSane(y.store.runs) && RunsAgree(y.store) && Enabled(y, e) && Rooted(y)
    ensures Rooted(Step(u, y, e))
  {
    hide StoreAfter, Step, RootsAfter, CarriesRoot, RunAfter, IsNew, RunsAgree, AllSane;
    RootsGrow(u, y, e);
    RunsOfStep(u, y, e);
    var z := Step(u, y, e);
    forall id | id in z.store.runs ensures CarriesRoot(z, id) {
      if id in y.store.runs { OldRunRooted(u, y, e, id); } else { NewRunRooted(u, y, e); }
    }
  }

  // ---------- every sequence of events

  /**
   * In every reachable state each run carries the pipeline, profile and template its chain of retries began with, and
   * shares this root with the run it retries, however many runs of the chain have been deleted.
   */
  lemma {:induction false} ChainsKeepTheirRoot(u: Setup, y: System, events: seq<Event>)
    requires Sound(y) && AllSane(y.store.runs) && RunsAgree(y.store) && Rooted(y) && Possible(u, y, events)
    ensures Rooted(After(u, y, events))
    ensures forall id | id in y.roots :: id in After(u, y, events).roots && After(u, y, events).roots[id] == y.roots[id]
    decreases |events|
  {
    hide Sound, AllSane, RunsAgree, CarriesRoot, Step, Enabled;
    if events != [] {
      var n := |events| - 1;
      var z := After(u, y, events[..n]);
      AfterSound(u, y, events[..n]);
      AlwaysSane(u, y, events[..n]);
      RunsAlwaysAgree(u, y, events[..n]);
      ChainsKeepTheirRoot(u, y, events[..n]);
      StepRooted(u, z, events[n]);
      RootsGrow(u, z, events[n]);
    }
  }

  /** A run that is no retry is its own root, and its root says what is stored for it when it is made. */
  lemma {:induction false} FirstIsRoot(u: Setup, y: System, e: Event)
    requires Sound(y) && RunsAgree(y.store) && Enabled(y, e) && Rooted(y) && MakesRun(e) && !e.RetryRun?
    requires e.id in StoreAfter(u, y, e).runs
    ensures var z := Step(u, y, e);
            && e.id in z.roots && z.roots[e.id].id == e.id && z.store.runs[e.id].retryOf.None?
            && e.id in z.store.inputs && z.roots[e.id].pipeline == z.store.inputs[e.id].pipeline
  {
    hide StoreAfter, Step, Masked;
    RootsGrow(u, y, e);
    RetriedOf(u, y, e);
    MadeRunInput(u, y, e);
  }
}
