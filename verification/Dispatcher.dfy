/** The schedule dispatcher: due rows are claimed and re-anchored in one step, and fired afterwards. */
module Dispatcher {
  import opened Options
  import opened Records
  import opened Schedules
  import Ordering

  // ---------- claiming

  predicate IsDue(row: Schedule, now: Time) {
    row.enabled && (row.nextFireAt.None? || row.nextFireAt.value <= now)
  }

  function Due(rows: map<Id, Schedule>, now: Time, locked: set<Id>): set<Id> {
    set id | id in rows && IsDue(rows[id], now) && id !in locked
  }

  /** Rows that lost their anchor come first, then the longest overdue. */
  function ByAnchor(rows: map<Id, Schedule>): Ordering.Key {
    id =>
      if id in rows && rows[id].nextFireAt.Some? then (1, rows[id].nextFireAt.value) else (0, 0)
  }

  function Batch(rows: map<Id, Schedule>, cfg: Settings, now: Time, locked: set<Id>): (ids: seq<Id>)
    ensures forall id | id in ids :: id in Due(rows, now, locked)
  {
    Ordering.Limited(Ordering.Sorted(ByAnchor(rows), Due(rows, now, locked)), cfg.batchSize)
  }

  /** Whether a run started by a schedule is still in flight. */
  predicate IsBusy(runs: map<Id, Run>, schedule: Id) {
    exists id | id in runs :: runs[id].triggeredBy == Some(schedule) && !IsTerminal(runs[id].status)
  }

  datatype Decision = Disable | Heal | Missed | Overlapping | Claimed

  function Decide(row: Schedule, busy: bool, cal: Calendar, cfg: Settings, now: Time): Decision {
    if cal.next(row.cron, now).None? then Disable
    else if row.nextFireAt.None? then Heal
    else if now - row.nextFireAt.value > cfg.missedGrace then Missed
    else if row.overlap == Skip && busy then Overlapping
    else Claimed
  }

  /** A due row after the claim: always re-anchored from `now`. */
  function ClaimRow(row: Schedule, busy: bool, cal: Calendar, cfg: Settings, now: Time): Schedule {
    var anchored := row.(nextFireAt := cal.next(row.cron, now));
    match Decide(row, busy, cal, cfg, now)
    case Disable =>
      ApplyFireResult(row.(enabled := false, nextFireAt := None), now, FireFailed, None, Some(InvalidCron))
    case Heal => anchored
    case Missed => ApplyFireResult(anchored, now, SkippedMissed, None, Some(MissedAt(row.nextFireAt.GetOr(now))))
    case Overlapping => ApplyFireResult(anchored, now, SkippedOverlap, None, None)
    case Claimed => anchored
  }

  /** Which rows of a batch are left to be fired, in order. */
  function ToFire(s: Store, batch: seq<Id>, cal: Calendar, cfg: Settings, now: Time): (ids: seq<Id>)
    requires forall id | id in batch :: id in s.schedules
    ensures forall id :: id in ids <==>
      id in batch && Decide(s.schedules[id], IsBusy(s.runs, id), cal, cfg, now) == Claimed
  {
    if batch == [] then []
    else
      var k := |batch| - 1;
      var rest := ToFire(s, batch[..k], cal, cfg, now);
      if Decide(s.schedules[batch[k]], IsBusy(s.runs, batch[k]), cal, cfg, now) == Claimed then rest + [batch[k]]
      else rest
  }

  function ClaimRows(s: Store, batch: seq<Id>, cal: Calendar, cfg: Settings, now: Time): map<Id, Schedule> {
    map id | id in s.schedules ::
      if id in batch then ClaimRow(s.schedules[id], IsBusy(s.runs, id), cal, cfg, now) else s.schedules[id]
  }

  datatype ClaimResult = ClaimResult(store: Store, toFire: seq<Id>)

  function ClaimDue(s: Store, cfg: Settings, cal: Calendar, now: Time, locked: set<Id>): (r: ClaimResult)
    ensures forall id | id in r.toFire :: id in s.schedules && s.schedules[id].nextFireAt.Some?
  {
    var batch := Batch(s.schedules, cfg, now, locked);
    ClaimResult(s.(schedules := ClaimRows(s, batch, cal, cfg, now)), ToFire(s, batch, cal, cfg, now))
  }

  // ---------- firing a claim

  /** The tables, the run that was made if any, and whether the call raises because its last commit failed. */
  datatype FireResult = FireResult(store: Store, run: Option<Id>, raised: bool)

  /** Fires a claimed schedule; the outcome is recorded under the time of the claim. */
  function FireClaim(
    s: Store, cfg: Settings, id: Id, reading: Time, runId: Id, now: Time, world: World, committed: bool): FireResult
  {
    if id !in s.schedules then FireResult(s, None, false)
    else
      FireKeepsRows(s, cfg, id, runId, now, world);
      match Fire(s, cfg, id, runId, now, world)
      case Raised(s1, error) =>
        var r := Record(s1, id, reading, FireFailed, None, Some(NotFired(error)), committed);
        FireResult(r.store, None, r.Raised?)
      case Done(s1, _) =>
        var r := Record(s1, id, reading, FireSuccess, Some(runId), None, committed);
        FireResult(r.store, Some(runId), r.Raised?)
  }

  /** What one firing meets: the id it draws, the clock, the world, and whether its outcome can be recorded. */
  datatype Draw = Draw(run: Id, now: Time, world: World, committed: bool)

  datatype Tally = Tally(store: Store, fired: nat, raised: bool)

  /** Fires claimed schedules one after the other and counts them; one that raises abandons the rest. */
  function FireAll(s: Store, cfg: Settings, ids: seq<Id>, reading: Time, draw: nat -> Draw): Tally {
    if ids == [] then Tally(s, 0, false)
    else
      var k := |ids| - 1;
      var before := FireAll(s, cfg, ids[..k], reading, draw);
      if before.raised then before
      else
        var d := draw(k);
        var r := FireClaim(before.store, cfg, ids[k], reading, d.run, d.now, d.world, d.committed);
        Tally(r.store, before.fired + if r.run.Some? && !r.raised then 1 else 0, r.raised)
  }
}
