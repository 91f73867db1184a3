/** The schedule service: editing schedules, keeping their stored input, and firing one of them. */
module Schedules {
  import opened Options
  import opened Records
  import Lines
  import Runs
  import Secrets

  /**
   * Cron as a library answers it: whether it takes an expression and a zone, and the first instant after a time at
   * which the expression occurs, None when the library raises instead.
   */
  datatype Calendar = Calendar(accepts: Cron -> bool, next: (Cron, Time) -> Option<Time>)

  predicate Occurs(cal: Calendar, c: Cron, t: Time) {
    cal.next(c, t - 1) == Some(t)
  }

  /** The promise of the library: next is the least occurrence strictly after its base, if there is one. */
  ghost predicate Lawful(cal: Calendar, c: Cron) {
    && (forall b: Time :: cal.next(c, b).Some? ==> b < cal.next(c, b).value && Occurs(cal, c, cal.next(c, b).value))
    && (forall b: Time, t: Time :: b < t && Occurs(cal, c, t) ==> cal.next(c, b).Some? && cal.next(c, b).value <= t)
  }

  lemma {:induction false} NextOccurs(cal: Calendar, c: Cron, b: Time)
    requires Lawful(cal, c) && cal.next(c, b).Some?
    ensures b < cal.next(c, b).value && Occurs(cal, c, cal.next(c, b).value)
  {
  }

  lemma {:induction false} NextIsLeast(cal: Calendar, c: Cron, b: Time, t: Time)
    requires Lawful(cal, c) && b < t && Occurs(cal, c, t)
    ensures cal.next(c, b).Some? && cal.next(c, b).value <= t
  {
  }

  // ---------- accepting an expression

  const SAMPLES := 8

  /** The expression as it is sampled: without its zone. */
  function Unzoned(c: Cron): Cron {
    c.(timezone := "UTC")
  }

  /** Whether so many further occurrences follow one another, none closer than an interval. */
  predicate Spread(cal: Calendar, c: Cron, previous: Time, count: nat, interval: int)
    decreases count
  {
    count == 0 ||
    match cal.next(c, previous)
    case None => false
    case Some(t) => interval <= t - previous && Spread(cal, c, t, count - 1, interval)
  }

  /** What the service accepts: the library's word and, where an interval is set, some well spaced occurrences. */
  predicate Accepted(cal: Calendar, cfg: Settings, c: Cron, now: Time) {
    && cal.accepts(c)
    && (cfg.minInterval > 0 ==>
          var first := cal.next(Unzoned(c), now);
          first.Some? && Spread(cal, Unzoned(c), first.value, SAMPLES - 1, cfg.minInterval))
  }

  // ---------- editing

  datatype ScheduleRequest = ScheduleRequest(cron: Cron, enabled: bool, overlap: Overlap, run: RunRequest)

  /** The columns a request sets, with the secrets masked. */
  function ApplyRequest(row: Schedule, req: ScheduleRequest, pipeline: Pipeline): Schedule {
    var image := Lines.Strip(req.run.pdeImage.GetOr(""), Lines.IsSpace);
    row.(cron := req.cron, overlap := req.overlap, profileId := req.run.profileId,
         pdeImage := if image == "" then None else Some(image),
         pipeline := Masked(pipeline), envVars := req.run.envVars)
  }

  function NewSchedule(req: ScheduleRequest, pipeline: Pipeline, nextFireAt: Option<Time>, now: Time): Schedule {
    ApplyRequest(
      Schedule(req.cron, req.enabled, req.overlap, req.run.profileId, None, Masked(pipeline), None,
               req.run.templateId, nextFireAt, None, None, None, None, now),
      req, pipeline)
  }

  function Create(
    s: Store, cfg: Settings, cal: Calendar, req: ScheduleRequest, id: Id, now: Time, world: World): Effect<Id>
  {
    if !Accepted(cal, cfg, req.cron, now) || Lines.Blank(req.run.pipeline.data) then Raised(s, ScheduleInvalid)
    else if req.run.profileId !in s.profiles then Raised(s, ProfileNotFound)
    else
      match Secrets.Merge(req.run.pipeline.secure, None)
      case UnknownKey(_) => Raised(s, ScheduleInvalid)
      case Merged(secure) =>
        var pipeline := req.run.pipeline.(secure := secure);
        if !world.storageOk then Raised(s, StorageFailed)
        else
          var stored := s.(inputs := s.inputs[id := Payload(pipeline, None)]);
          var next := if req.enabled then cal.next(req.cron, now) else None;
          if req.enabled && next.None? then Raised(stored, ScheduleInvalid)
          else if !world.committed then Raised(stored, CommitFailed)
          else Done(stored.(schedules := stored.schedules[id := NewSchedule(req, pipeline, next, now)]), id)
  }

  /** Whether an accepted update has to ask for a new anchor. */
  predicate ReAnchors(row: Schedule, req: ScheduleRequest) {
    req.enabled && (!row.enabled || row.cron != req.cron || row.nextFireAt.None?)
  }

  /** The pipeline an update stores: the request's, with kept secrets put back. */
  function Resolved(s: Store, id: Id, req: ScheduleRequest): Option<Pipeline>
    requires id in s.inputs
  {
    match Secrets.Merge(req.run.pipeline.secure, s.inputs[id].pipeline.secure)
    case UnknownKey(_) => None
    case Merged(secure) => Some(req.run.pipeline.(secure := secure))
  }

  /** The row after an update that goes through; its anchor is `next` where one is asked for. */
  function UpdatedRow(
    row: Schedule, req: ScheduleRequest, pipeline: Pipeline, next: Option<Time>, now: Time): Schedule
  {
    var edited := ApplyRequest(row, req, pipeline).(updatedAt := now, enabled := req.enabled);
    if !req.enabled then edited.(nextFireAt := None)
    else if ReAnchors(row, req) then edited.(nextFireAt := next)
    else edited
  }

  /** Stores the new input, then updates the row; without an anchor or a commit the row is left as it was. */
  function Update(
    s: Store, cfg: Settings, cal: Calendar, id: Id, req: ScheduleRequest, now: Time, world: World): Effect<Id>
  {
    if id !in s.schedules then Raised(s, ScheduleNotFound)
    else if !Accepted(cal, cfg, req.cron, now) then Raised(s, ScheduleInvalid)
    else if req.run.profileId !in s.profiles then Raised(s, ProfileNotFound)
    else if id !in s.inputs || !world.readable then Raised(s, InputNotAvailable)
    else
      match Resolved(s, id, req)
      case None => Raised(s, ScheduleInvalid)
      case Some(pipeline) =>
        if !world.storageOk then Raised(s, StorageFailed)
        else
          var stored := s.(inputs := s.inputs[id := Payload(pipeline, None)]);
          var next := cal.next(req.cron, now);
          var row := UpdatedRow(s.schedules[id], req, pipeline, next, now);
          if ReAnchors(s.schedules[id], req) && next.None? then Raised(stored, ScheduleInvalid)
          else if !world.committed then Raised(stored, CommitFailed)
          else Done(stored.(schedules := stored.schedules[id := row]), id)
  }

  function SetEnabled(s: Store, cal: Calendar, id: Id, enabled: bool, now: Time): Effect<Id> {
    if id !in s.schedules then Raised(s, ScheduleNotFound)
    else
      var row := s.schedules[id];
      var next := if enabled then cal.next(row.cron, now) else None;
      if row.enabled == enabled then Done(s, id)
      else if enabled && next.None? then Raised(s, ScheduleInvalid)
      else Done(s.(schedules := s.schedules[id := row.(enabled := enabled, nextFireAt := next, updatedAt := now)]), id)
  }

  /** Deletes what is stored, then the row; when the commit fails the row is left without its input. */
  function Delete(s: Store, id: Id, cleanupOk: bool, committed: bool): Effect<Id> {
    if id !in s.schedules then Raised(s, ScheduleNotFound)
    else if !cleanupOk then Raised(s, CleanupFailed)
    else
      var cleaned := s.(inputs := s.inputs - {id});
      if !committed then Raised(cleaned, CommitFailed) else Done(cleaned.(schedules := s.schedules - {id}), id)
  }

  /** Deletes every row; the inputs in `kept` are those whose deletion fails. */
  function DeleteAll(s: Store, kept: set<Id>): Store {
    s.(schedules := map[], inputs := s.inputs - (s.schedules.Keys - kept))
  }

  // ---------- firing

  function ApplyFireResult(
    row: Schedule, now: Time, status: FireStatus, runId: Option<Id>, error: Option<FireError>): Schedule
  {
    row.(lastFireAt := Some(now), lastFireStatus := Some(status), lastFireError := error,
         lastRunId := if runId.Some? then runId else row.lastRunId, updatedAt := now)
  }

  /** A run made from the stored input of a schedule and the other columns of its row. */
  function Fire(s: Store, cfg: Settings, id: Id, runId: Id, now: Time, world: World): Effect<Id>
    requires id in s.schedules
  {
    var row := s.schedules[id];
    if id !in s.inputs || !world.readable then Raised(s, InputNotAvailable)
    else
      Runs.CreateRun(
        s, cfg, RunRequest(row.profileId, s.inputs[id].pipeline, row.envVars, row.pdeImage, row.templateId),
        runId, Some(id), now, world)
  }

  /** Keeps the outcome of a firing on the row. */
  function Recorded(
    s: Store, id: Id, now: Time, status: FireStatus, runId: Option<Id>, error: Option<FireError>): Store
    requires id in s.schedules
  {
    s.(schedules := s.schedules[id := ApplyFireResult(s.schedules[id], now, status, runId, error)])
  }

  /** The same as a commit of its own, which can fail. */
  function Record(
    s: Store, id: Id, now: Time, status: FireStatus, runId: Option<Id>, error: Option<FireError>, committed: bool)
    : Effect<Id>
    requires id in s.schedules
  {
    if committed then Done(Recorded(s, id, now, status, runId, error), id) else Raised(s, CommitFailed)
  }

  lemma {:induction false} FireKeepsRows(s: Store, cfg: Settings, id: Id, runId: Id, now: Time, world: World)
    requires id in s.schedules
    ensures Fire(s, cfg, id, runId, now, world).store.schedules == s.schedules
  {
  }

  /** Fires by hand, whatever the overlap policy; a failed firing is raised and not recorded. */
  function TriggerNow(
    s: Store, cfg: Settings, id: Id, runId: Id, now: Time, world: World, committed: bool): Effect<Id>
  {
    if id !in s.schedules then Raised(s, ScheduleNotFound)
    else
      match Fire(s, cfg, id, runId, now, world)
      case Raised(s1, error) => Raised(s1, error)
      case Done(s1, _) =>
        FireKeepsRows(s, cfg, id, runId, now, world);
        match Record(s1, id, now, FireSuccess, Some(runId), None, committed)
        case Raised(s2, error) => Raised(s2, error)
        case Done(s2, _) => Done(s2, runId)
  }
}
