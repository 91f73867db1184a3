/** The operator as a whole: every committed session is one step over the tables, on one clock. */
module Operator {
  import opened Options
  import opened Records
  import D = Dispatcher
  import Queue
  import Reconciler
  import Runs
  import Schedules

  datatype Setup = Setup(cfg: Settings, cal: Schedules.Calendar)

  /** A firing the dispatcher has committed itself to: its schedule and cron, the planned instant, the clock it read. */
  datatype Claim = Claim(schedule: Id, cron: Cron, planned: Time, reading: Time)

  /** A run the dispatcher has made for a claim, by the position of the claim in the log. */
  datatype Fired = Fired(claim: nat, run: Id)

  /** The first run of a chain of retries: what was stored for it, its profile and its template, when it was made. */
  datatype Root = Root(id: Id, pipeline: Pipeline, profileId: string, templateId: Option<Id>)

  /**
   * The tables, the clock and what has happened so far: all claims, those not yet fired or lost, the runs made for
   * claims, every id ever drawn for a run or given to a schedule, the time of the last complete reconciler tick, and
   * for every run ever made the first run of its chain of retries.
   */
  datatype System = System(
    store: Store, clock: Time, claims: seq<Claim>, inFlight: set<nat>, fired: seq<Fired>,
    runIds: set<Id>, scheduleIds: set<Id>, lastTick: Option<Time>, roots: map<Id, Root>)

  datatype Event =
    | CreateRun(request: RunRequest, id: Id, world: World)
    | RetryRun(parent: Id, retry: Runs.RetryRequest, id: Id, stateOk: bool, world: World)
    | CancelRun(id: Id)
    | DeleteRun(id: Id, ok: bool, committed: bool)
    | DeliverStatus(id: Id, report: Runs.StatusReport)
    | DeliverReport(id: Id, code: Option<string>, ok: bool)
    | UploadArtifacts(id: Id, upload: Runs.Upload, ok: bool)
    | AdmitTick(locked: set<Id>, refused: set<Id>)
    | ReconcileTick(seen: Id -> Reconciler.Observation)
    | CreateSchedule(definition: Schedules.ScheduleRequest, id: Id, world: World)
    | UpdateSchedule(id: Id, definition: Schedules.ScheduleRequest, world: World)
    | SetEnabled(id: Id, enabled: bool)
    | DeleteSchedule(id: Id, ok: bool, committed: bool)
    | DeleteAllSchedules(kept: set<Id>)
    | TriggerNow(schedule: Id, id: Id, world: World, committed: bool)
    | ClaimDue(reading: Time, locked: set<Id>)
    | FireClaim(claim: nat, id: Id, world: World, committed: bool)
    | LoseClaim(claim: nat)
    | SetProfiles(profiles: map<string, string>)
    | Wait(duration: nat)

  /** The id an event draws for a new run. */
  function DrawnRunId(e: Event): Option<Id> {
    if e.CreateRun? || e.RetryRun? || e.TriggerNow? || e.FireClaim? then Some(e.id) else None
  }

  /** Drawn run ids are new; a schedule id may come back after its row is gone, but is never a run id. */
  predicate Enabled(y: System, e: Event) {
    && (DrawnRunId(e).Some? ==> e.id !in y.runIds && e.id !in y.scheduleIds)
    && (e.CreateSchedule? ==> e.id !in y.runIds && e.id !in y.store.schedules)
    && (e.ClaimDue? ==> e.reading <= y.clock)
    && (e.FireClaim? ==> e.claim in y.inFlight && e.claim < |y.claims|)
    && (e.LoseClaim? ==> e.claim in y.inFlight)
  }

  /** The claims a claiming step adds to the log. */
  function NewClaims(s: Store, toFire: seq<Id>, reading: Time): (claims: seq<Claim>)
    requires forall id | id in toFire :: id in s.schedules && s.schedules[id].nextFireAt.Some?
    ensures |claims| == |toFire|
  {
    seq(|toFire|, i requires 0 <= i < |toFire| =>
      var row := s.schedules[toFire[i]];
      Claim(toFire[i], row.cron, row.nextFireAt.value, reading))
  }

  /** So many positions from a first one on. */
  function Positions(first: nat, count: nat): (p: set<nat>)
    ensures forall i :: i in p <==> first <= i < first + count
  {
    if count == 0 then {} else Positions(first, count - 1) + {first + count - 1}
  }

  /** The tables after an event. */
  function StoreAfter(u: Setup, y: System, e: Event): Store
    requires Enabled(y, e)
  {
    var s, now := y.store, y.clock;
    match e
    case CreateRun(request, id, world) => Runs.CreateRun(s, u.cfg, request, id, None, now, world).store
    case RetryRun(parent, retry, id, stateOk, world) =>
      Runs.Retry(s, u.cfg, parent, retry, id, now, stateOk, world).store
    case CancelRun(id) => Runs.Cancel(s, id, now).store
    case DeleteRun(id, ok, committed) => Runs.Delete(s, id, ok, committed).store
    case DeliverStatus(id, report) => Runs.DeliverStatus(s, id, report, now).store
    case DeliverReport(id, code, ok) => Runs.DeliverReport(s, id, code, now, ok).store
    case UploadArtifacts(id, upload, ok) => Runs.UploadArtifacts(s, id, upload, now, ok).store
    case AdmitTick(locked, refused) => Queue.Admit(s, u.cfg, locked, refused, now)
    case ReconcileTick(seen) => Reconciler.Reconcile(s, seen, u.cfg, now)
    case CreateSchedule(definition, id, world) => Schedules.Create(s, u.cfg, u.cal, definition, id, now, world).store
    case UpdateSchedule(id, definition, world) => Schedules.Update(s, u.cfg, u.cal, id, definition, now, world).store
    case SetEnabled(id, enabled) => Schedules.SetEnabled(s, u.cal, id, enabled, now).store
    case DeleteSchedule(id, ok, committed) => Schedules.Delete(s, id, ok, committed).store
    case DeleteAllSchedules(kept) => Schedules.DeleteAll(s, kept)
    case TriggerNow(schedule, id, world, committed) =>
      Schedules.TriggerNow(s, u.cfg, schedule, id, now, world, committed).store
    case ClaimDue(reading, locked) => D.ClaimDue(s, u.cfg, u.cal, reading, locked).store
    case FireClaim(claim, id, world, committed) => Firing(u, y, claim, id, world, committed).store
    case LoseClaim(_) => s
    case SetProfiles(profiles) => s.(profiles := profiles)
    case Wait(_) => s
  }

  function Firing(u: Setup, y: System, claim: nat, id: Id, world: World, committed: bool): D.FireResult
    requires claim < |y.claims|
  {
    var c := y.claims[claim];
    D.FireClaim(y.store, u.cfg, c.schedule, c.reading, id, y.clock, world, committed)
  }

  /** A retry has the root of its parent; any other new run is a root itself. */
  function RootsAfter(y: System, e: Event, t: Store): map<Id, Root> {
    if DrawnRunId(e).None? || e.id !in t.runs || e.id !in t.inputs then y.roots
    else if e.RetryRun? then if e.parent in y.roots then y.roots[e.id := y.roots[e.parent]] else y.roots
    else
      var run := t.runs[e.id];
      y.roots[e.id := Root(e.id, t.inputs[e.id].pipeline, run.profileId, run.templateId)]
  }

  function Step(u: Setup, y: System, e: Event): System
    requires Enabled(y, e)
  {
    var t := StoreAfter(u, y, e);
    var z := y.(
      store := t, roots := RootsAfter(y, e, t),
      runIds := if DrawnRunId(e).Some? then y.runIds + {e.id} else y.runIds,
      scheduleIds := if e.CreateSchedule? then y.scheduleIds + {e.id} else y.scheduleIds);
    match e
    case ReconcileTick(seen) =>
      if Reconciler.TickSucceeds(y.store.runs, seen, u.cfg, y.clock) then z.(lastTick := Some(y.clock)) else z
    case ClaimDue(reading, locked) =>
      var added := NewClaims(y.store, D.ClaimDue(y.store, u.cfg, u.cal, reading, locked).toFire, reading);
      z.(claims := y.claims + added, inFlight := y.inFlight + Positions(|y.claims|, |added|))
    case FireClaim(claim, id, world, committed) =>
      var made := Firing(u, y, claim, id, world, committed).run;
      z.(inFlight := y.inFlight - {claim},
         fired := if made.Some? then y.fired + [Fired(claim, made.value)] else y.fired)
    case LoseClaim(claim) => z.(inFlight := y.inFlight - {claim})
    case Wait(duration) => z.(clock := y.clock + duration)
    case _ => z
  }

  // ---------- runs of the whole system

  predicate Initial(y: System) {
    && y.store.runs == map[] && y.store.schedules == map[] && y.store.inputs == map[]
    && y.claims == [] && y.inFlight == {} && y.fired == [] && y.runIds == {} && y.scheduleIds == {}
    && y.lastTick == None && y.roots == map[]
  }

  /** Whether the events can happen one after the other from a state. */
  predicate Possible(u: Setup, y: System, events: seq<Event>)
    decreases |events|, 0
  {
    events == [] ||
    (var n := |events| - 1;
     Possible(u, y, events[..n]) && Enabled(After(u, y, events[..n]), events[n]))
  }

  function After(u: Setup, y: System, events: seq<Event>): System
    requires Possible(u, y, events)
    decreases |events|, 1
  {
    if events == [] then y
    else
      var n := |events| - 1;
      Step(u, After(u, y, events[..n]), events[n])
  }
}
