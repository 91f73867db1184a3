/** What a tick of the dispatcher makes of each schedule, and what becomes of the claims it makes. */
module Claims {
  import opened Dispatch
  import opened Operator
  import opened Options
  import opened Outcomes
  import opened Records
  import D = Dispatcher
  import Ordering
  import Runs
  import Schedules

  // ---------- which rows a tick takes up

  /** Rows without an anchor come first, then the longest overdue; equals in the order of their ids. */
  predicate TakenBefore(rows: map<Id, Schedule>, a: Id, b: Id)
    requires a in rows && b in rows
  {
    match rows[a].nextFireAt
    case None => rows[b].nextFireAt.Some? || a < b
    case Some(at) =>
      && rows[b].nextFireAt.Some?
      && (at < rows[b].nextFireAt.value || (at == rows[b].nextFireAt.value && a < b))
  }

  /** The enabled rows in no other session whose instant has come, or who have none. */
  function Overdue(rows: map<Id, Schedule>, now: Time, locked: set<Id>): set<Id> {
    set id | id in rows && rows[id].enabled && id !in locked &&
             (rows[id].nextFireAt.None? || rows[id].nextFireAt.value <= now)
  }

  /** A tick takes up a row exactly if it is overdue and fewer overdue ones come before it than the batch holds. */
  predicate TakesUp(rows: map<Id, Schedule>, cfg: Settings, now: Time, locked: set<Id>, id: Id) {
    var overdue := Overdue(rows, now, locked);
    id in overdue && |set x | x in overdue && TakenBefore(rows, x, id)| < cfg.batchSize
  }

  lemma {:induction false} SameOrder(rows: map<Id, Schedule>, a: Id, b: Id)
    requires a in rows && b in rows
    ensures TakenBefore(rows, a, b) <==> Ordering.Before(D.ByAnchor(rows), a, b)
  {
  }

  lemma {:induction false} BatchTakesUp(rows: map<Id, Schedule>, cfg: Settings, now: Time, locked: set<Id>, id: Id)
    ensures id in D.Batch(rows, cfg, now, locked) <==> TakesUp(rows, cfg, now, locked, id)
  {
    var key, due := D.ByAnchor(rows), D.Due(rows, now, locked);
    assert due == Overdue(rows, now, locked);
    Ordering.LimitCounts(key, due, cfg.batchSize, id);
    forall x | x in due && id in due ensures TakenBefore(rows, x, id) <==> Ordering.Before(key, x, id) {
      SameOrder(rows, x, id);
    }
    hide D.ByAnchor, TakenBefore, Ordering.Before, D.Due, Overdue;
    if id in due {
      assert (set x | x in due && TakenBefore(rows, x, id)) == (set x | x in due && Ordering.Before(key, x, id));
    }
  }

  // ---------- what a tick makes of a row

  /** A run of the schedule has not ended yet. */
  predicate Running(runs: map<Id, Run>, schedule: Id) {
    exists id | id in runs ::
      runs[id].triggeredBy == Some(schedule) && runs[id].status in {Queued, NotStarted, InProgress}
  }

  /** What is kept of a firing: its instant, how it went, why it failed, and the run where there is one. */
  predicate Keeps(
    before: Schedule, after: Schedule, at: Time, status: FireStatus, runId: Option<Id>, error: Option<FireError>)
  {
    && after.lastFireAt == Some(at) && after.lastFireStatus == Some(status) && after.lastFireError == error
    && after.lastRunId == if runId.Some? then runId else before.lastRunId
  }

  predicate KeepsNothing(before: Schedule, after: Schedule) {
    && after.lastFireAt == before.lastFireAt && after.lastFireStatus == before.lastFireStatus
    && after.lastFireError == before.lastFireError && after.lastRunId == before.lastRunId
  }

  /** Only the anchor, the switch and what is kept of firings differ. */
  predicate OnlyFired(before: Schedule, after: Schedule) {
    after == before.(enabled := after.enabled, nextFireAt := after.nextFireAt, lastFireAt := after.lastFireAt,
                     lastFireStatus := after.lastFireStatus, lastFireError := after.lastFireError,
                     lastRunId := after.lastRunId, updatedAt := after.updatedAt)
  }

  /** A row is left to be fired: it occurs again, was planned, is not missed, and nothing holds it back. */
  predicate Fires(row: Schedule, running: bool, cal: Schedules.Calendar, cfg: Settings, now: Time) {
    && cal.next(row.cron, now).Some? && row.nextFireAt.Some? && now - row.nextFireAt.value <= cfg.missedGrace
    && !(row.overlap == Skip && running)
  }

  /** What becomes of a row that is taken up. */
  predicate TakenUp(
    before: Schedule, after: Schedule, running: bool, cal: Schedules.Calendar, cfg: Settings, now: Time)
  {
    var next := cal.next(before.cron, now);
    && OnlyFired(before, after) && after.nextFireAt == next && (after.enabled <==> before.enabled && next.Some?)
    && if next.None? then Keeps(before, after, now, FireFailed, None, Some(InvalidCron))
       else if before.nextFireAt.None? || Fires(before, running, cal, cfg, now) then KeepsNothing(before, after)
       else if now - before.nextFireAt.value > cfg.missedGrace then
         Keeps(before, after, now, SkippedMissed, None, Some(MissedAt(before.nextFireAt.value)))
       else Keeps(before, after, now, SkippedOverlap, None, None)
  }

  lemma {:induction false} ClaimedRowIs(
    row: Schedule, running: bool, cal: Schedules.Calendar, cfg: Settings, now: Time)
    requires row.enabled
    ensures TakenUp(row, D.ClaimRow(row, running, cal, cfg, now), running, cal, cfg, now)
    ensures D.Decide(row, running, cal, cfg, now) == D.Claimed <==> Fires(row, running, cal, cfg, now)
  {
  }

  lemma {:induction false} BusyIsRunning(runs: map<Id, Run>, schedule: Id)
    ensures D.IsBusy(runs, schedule) <==> Running(runs, schedule)
  {
    forall id | id in runs
      ensures !IsTerminal(runs[id].status) <==> runs[id].status in {Queued, NotStarted, InProgress}
    {
    }
  }

  /**
   * A tick that does not take a row up leaves it as it was. One that does gives it its next occurrence, or disables it
   * where there is none; it claims the instant that was planned exactly if the row fires, and else keeps why not.
   */
  lemma {:induction false} ClaimOutcome(u: Setup, y: System, e: Event, id: Id)
    requires Enabled(y, e) && e.ClaimDue? && id in y.store.schedules
    ensures id in StoreAfter(u, y, e).schedules
    ensures var before, after := y.store.schedules[id], StoreAfter(u, y, e).schedules[id];
            var taken := TakesUp(y.store.schedules, u.cfg, e.reading, e.locked, id);
            var running := Running(y.store.runs, id);
            && (if taken then TakenUp(before, after, running, u.cal, u.cfg, e.reading) else after == before)
            && ((exists c :: c in Added(u, y, e) && c.schedule == id) <==>
                  taken && Fires(before, running, u.cal, u.cfg, e.reading))
            && forall c | c in Added(u, y, e) && c.schedule == id ::
                 c.cron == before.cron && before.nextFireAt == Some(c.planned) && c.reading == e.reading
  {
    hide D.Batch, D.IsBusy, D.Decide, D.ClaimRow, D.ToFire, TakesUp, Running, TakenUp, Fires, FromRow, NewClaims;
    var rows := y.store.schedules;
    BatchTakesUp(rows, u.cfg, e.reading, e.locked, id);
    BusyIsRunning(y.store.runs, id);
    if TakesUp(rows, u.cfg, e.reading, e.locked, id) {
      TakenIsEnabled(rows, u.cfg, e.reading, e.locked, id);
      ClaimedRowIs(rows[id], Running(y.store.runs, id), u.cal, u.cfg, e.reading);
    }
    AddedFromRows(u, y, e);
    AddedExactly(u, y, e, id);
  }

  lemma {:induction false} TakenIsEnabled(rows: map<Id, Schedule>, cfg: Settings, now: Time, locked: set<Id>, id: Id)
    requires TakesUp(rows, cfg, now, locked, id)
    ensures id in rows && rows[id].enabled
  {
  }

  lemma {:induction false} AddedExactly(u: Setup, y: System, e: Event, id: Id)
    requires Enabled(y, e) && e.ClaimDue? && id in y.store.schedules
    ensures (exists c :: c in Added(u, y, e) && c.schedule == id) <==>
            && id in D.Batch(y.store.schedules, u.cfg, e.reading, e.locked)
            && D.Decide(y.store.schedules[id], D.IsBusy(y.store.runs, id), u.cal, u.cfg, e.reading) == D.Claimed
    ensures forall c | c in Added(u, y, e) && c.schedule == id ::
              && c.cron == y.store.schedules[id].cron && c.reading == e.reading
              && y.store.schedules[id].nextFireAt == Some(c.planned)
  {
    hide D.Batch, D.IsBusy, D.Decide, D.IsDue;
    AddedFromRows(u, y, e);
    var s := y.store;
    var ids := D.ToFire(s, D.Batch(s.schedules, u.cfg, e.reading, e.locked), u.cal, u.cfg, e.reading);
    var added := Added(u, y, e);
    assert |added| == |ids| && forall i | 0 <= i < |ids| :: added[i].schedule == ids[i];
    if id in ids {
      var i :| 0 <= i < |ids| && ids[i] == id;
      assert added[i] in added;
    }
    forall c | c in added && c.schedule == id ensures id in ids {
      var i :| 0 <= i < |added| && added[i] == c;
      assert ids[i] in ids;
    }
  }

  predicate InOrder(rows: map<Id, Schedule>, ids: seq<Id>)
    requires forall id | id in ids :: id in rows
  {
    forall i, j | 0 <= i < j < |ids| :: TakenBefore(rows, ids[i], ids[j])
  }

  lemma {:induction false} ToFireInOrder(
    s: Store, batch: seq<Id>, cal: Schedules.Calendar, cfg: Settings, now: Time)
    requires (forall id | id in batch :: id in s.schedules) && InOrder(s.schedules, batch)
    ensures InOrder(s.schedules, D.ToFire(s, batch, cal, cfg, now))
  {
    hide D.Decide, D.IsBusy, TakenBefore;
    if batch != [] {
      var k := |batch| - 1;
      var rest := D.ToFire(s, batch[..k], cal, cfg, now);
      assert InOrder(s.schedules, batch[..k]);
      ToFireInOrder(s, batch[..k], cal, cfg, now);
      forall id | id in rest ensures TakenBefore(s.schedules, id, batch[k]) {
        assert id in batch[..k];
        var i :| 0 <= i < k && batch[..k][i] == id;
        assert batch[i] == id;
      }
    }
  }

  lemma {:induction false} BatchInOrder(rows: map<Id, Schedule>, cfg: Settings, now: Time, locked: set<Id>)
    ensures forall id | id in D.Batch(rows, cfg, now, locked) :: id in rows
    ensures InOrder(rows, D.Batch(rows, cfg, now, locked))
  {
    hide D.IsDue, D.ByAnchor, Ordering.Before, TakenBefore;
    var list := Ordering.Sorted(D.ByAnchor(rows), D.Due(rows, now, locked));
    var batch := D.Batch(rows, cfg, now, locked);
    assert batch == if |list| <= cfg.batchSize then list else list[..cfg.batchSize];
    assert forall i | 0 <= i < |batch| :: batch[i] == list[i];
    forall id | id in batch ensures id in rows { assert id in D.Due(rows, now, locked); }
    assert forall i | 0 <= i < |batch| :: batch[i] in batch;
    forall i, j | 0 <= i < j < |batch| ensures TakenBefore(rows, batch[i], batch[j]) {
      SameOrder(rows, batch[i], batch[j]);
    }
  }

  /** A tick claims, and so fires, the longest overdue first. */
  lemma {:induction false} ClaimsInOrder(u: Setup, y: System, e: Event, i: nat, j: nat)
    requires Enabled(y, e) && e.ClaimDue? && i < j < |Added(u, y, e)|
    ensures var a, b := Added(u, y, e)[i], Added(u, y, e)[j];
            a.planned < b.planned || (a.planned == b.planned && a.schedule < b.schedule)
  {
    hide D.IsBusy, D.Decide, D.Batch, TakenBefore;
    AddedFromRows(u, y, e);
    var s := y.store;
    var batch := D.Batch(s.schedules, u.cfg, e.reading, e.locked);
    BatchInOrder(s.schedules, u.cfg, e.reading, e.locked);
    ToFireInOrder(s, batch, u.cal, u.cfg, e.reading);
    var ids, added := D.ToFire(s, batch, u.cal, u.cfg, e.reading), Added(u, y, e);
    assert |added| == |ids| && added[i].schedule == ids[i] && added[j].schedule == ids[j];
    hide D.ToFire;
    assert added[i] in added && added[j] in added;
    PlannedOrder(s.schedules, added[i], added[j]);
  }

  lemma {:induction false} PlannedOrder(rows: map<Id, Schedule>, a: Claim, b: Claim)
    requires a.schedule in rows && rows[a.schedule].nextFireAt == Some(a.planned)
    requires b.schedule in rows && rows[b.schedule].nextFireAt == Some(b.planned)
    requires TakenBefore(rows, a.schedule, b.schedule)
    ensures a.planned < b.planned || (a.planned == b.planned && a.schedule < b.schedule)
  {
  }

  // ---------- what becomes of a claim

  /** What a schedule asks for: the pipeline stored for it, and the other columns of its row. */
  function Asks(s: Store, id: Id): RunRequest
    requires id in s.schedules && id in s.inputs
  {
    var row := s.schedules[id];
    RunRequest(row.profileId, s.inputs[id].pipeline, row.envVars, row.pdeImage, row.templateId)
  }

  /** A firing makes the run the schedule asks for, or nothing where what it stored is gone or cannot be read. */
  predicate FiringMakes(s: Store, t: Store, cfg: Settings, id: Id, runId: Id, now: Time, world: World)
    requires id in s.schedules
  {
    if id in s.inputs && world.readable then
      Makes(s, t.(schedules := s.schedules), cfg, Asks(s, id), runId, Some(id), now, world)
    else t.runs == s.runs && t.inputs == s.inputs && t.profiles == s.profiles
  }

  /** Whether a firing makes a run. */
  predicate FiringSucceeds(s: Store, cfg: Settings, id: Id, world: World)
    requires id in s.schedules
  {
    && id in s.inputs && world.readable && s.schedules[id].profileId in s.profiles && world.storageOk
    && CanStart(cfg, world) && world.committed
  }

  lemma {:induction false} FireMakes(s: Store, cfg: Settings, id: Id, runId: Id, now: Time, world: World)
    requires id in s.schedules
    ensures var r := Schedules.Fire(s, cfg, id, runId, now, world);
            && (r.Done? <==> FiringSucceeds(s, cfg, id, world)) && r.store.schedules == s.schedules
            && FiringMakes(s, r.store, cfg, id, runId, now, world)
  {
    hide Runs.CreateRun, Makes;
    Schedules.FireKeepsRows(s, cfg, id, runId, now, world);
    if id in s.inputs { RequestMakes(s, cfg, Asks(s, id), runId, Some(id), now, world); }
  }

  /** The outcome of a firing is kept on its row, which is otherwise as it was but for the time it was changed. */
  predicate OutcomeKept(
    s: Store, t: Store, id: Id, at: Time, status: FireStatus, runId: Option<Id>, error: Option<FireError>)
    requires id in s.schedules
  {
    && id in t.schedules && t.schedules == s.schedules[id := t.schedules[id]]
    && var before, after := s.schedules[id], t.schedules[id];
       && Keeps(before, after, at, status, runId, error) && OnlyFired(before, after)
       && after.enabled == before.enabled && after.nextFireAt == before.nextFireAt
  }

  /**
   * Firing a claim makes the run its schedule asks for then, if the schedule is still there. How it went is kept under
   * the time of the claim, with the run where there is one, unless the last commit fails.
   */
  ghost predicate FiringLeaves(s: Store, t: Store, cfg: Settings, id: Id, reading: Time, d: D.Draw) {
    if id !in s.schedules then t == s
    else
      && FiringMakes(s, t, cfg, id, d.run, d.now, d.world)
      && if !d.committed then t.schedules == s.schedules
         else if FiringSucceeds(s, cfg, id, d.world) then
           OutcomeKept(s, t, id, reading, FireSuccess, Some(d.run), None)
         else exists error :: OutcomeKept(s, t, id, reading, FireFailed, None, Some(NotFired(error)))
  }

  lemma {:induction false} OneFiringLeaves(s: Store, cfg: Settings, id: Id, reading: Time, d: D.Draw)
    ensures var r := D.FireClaim(s, cfg, id, reading, d.run, d.now, d.world, d.committed);
            && FiringLeaves(s, r.store, cfg, id, reading, d)
            && (r.raised <==> id in s.schedules && !d.committed)
  {
    hide Schedules.Fire, FiringMakes, FiringSucceeds;
    if id in s.schedules {
      FireMakes(s, cfg, id, d.run, d.now, d.world);
      var fired := Schedules.Fire(s, cfg, id, d.run, d.now, d.world);
      var t := D.FireClaim(s, cfg, id, reading, d.run, d.now, d.world, d.committed).store;
      SameMakes(s, fired.store, t, cfg, id, d.run, d.now, d.world);
      if fired.Raised? && d.committed {
        assert OutcomeKept(s, t, id, reading, FireFailed, None, Some(NotFired(fired.error)));
      }
    }
  }

  /** So it is with a firing among other events. */
  lemma {:induction false} FireOutcome(u: Setup, y: System, e: Event)
    requires Enabled(y, e) && e.FireClaim?
    ensures var c := y.claims[e.claim];
            FiringLeaves(y.store, StoreAfter(u, y, e), u.cfg, c.schedule, c.reading,
                         D.Draw(e.id, y.clock, e.world, e.committed))
  {
    hide FiringLeaves, D.FireClaim;
    var c := y.claims[e.claim];
    OneFiringLeaves(y.store, u.cfg, c.schedule, c.reading, D.Draw(e.id, y.clock, e.world, e.committed));
  }

  lemma {:induction false} SameMakes(
    s: Store, t: Store, t': Store, cfg: Settings, id: Id, runId: Id, now: Time, world: World)
    requires id in s.schedules && FiringMakes(s, t, cfg, id, runId, now, world)
    requires t'.runs == t.runs && t'.inputs == t.inputs && t'.profiles == t.profiles
    ensures FiringMakes(s, t', cfg, id, runId, now, world)
  {
    hide CanStart, Fresh, ImageOf, Masked;
  }

  /** Firing by hand makes the run the schedule asks for, and keeps only a success, at the time it was asked for. */
  lemma {:induction false} TriggerOutcome(u: Setup, y: System, e: Event)
    requires Enabled(y, e) && e.TriggerNow?
    ensures var s, t := y.store, StoreAfter(u, y, e);
            if e.schedule !in s.schedules then t == s
            else
              && FiringMakes(s, t, u.cfg, e.schedule, e.id, y.clock, e.world)
              && if FiringSucceeds(s, u.cfg, e.schedule, e.world) && e.committed then
                   OutcomeKept(s, t, e.schedule, y.clock, FireSuccess, Some(e.id), None)
                 else t.schedules == s.schedules
  {
    hide Schedules.Fire, FiringMakes, FiringSucceeds;
    var s := y.store;
    if e.schedule in s.schedules {
      FireMakes(s, u.cfg, e.schedule, e.id, y.clock, e.world);
      var r := Schedules.Fire(s, u.cfg, e.schedule, e.id, y.clock, e.world);
      SameMakes(s, r.store, StoreAfter(u, y, e), u.cfg, e.schedule, e.id, y.clock, e.world);
    }
  }

  // ---------- all claims of a tick

  /** The tables after each firing of a tick, one claim after the other from the first on. */
  ghost predicate FiredOneByOne(
    states: seq<Store>, s: Store, cfg: Settings, ids: seq<Id>, reading: Time, draw: nat -> D.Draw)
  {
    && 0 < |states| <= |ids| + 1 && states[0] == s
    && forall i | 0 <= i < |states| - 1 :: FiringLeaves(states[i], states[i + 1], cfg, ids[i], reading, draw(i))
  }

  /** Whether the outcome of a firing is lost. */
  predicate LosesOutcome(s: Store, id: Id, d: D.Draw) {
    id in s.schedules && !d.committed
  }

  /** All claims are fired, or the last firing of some is the one that has lost its outcome. */
  predicate StopsWhereLost(states: seq<Store>, ids: seq<Id>, draw: nat -> D.Draw, raised: bool) {
    && 0 < |states| <= |ids| + 1 && (|states| == |ids| + 1 || raised) && (raised ==> |states| > 1)
    && forall i | 0 <= i < |states| - 1 ::
         LosesOutcome(states[i], ids[i], draw(i)) <==> raised && i == |states| - 2
  }

  lemma {:induction false} SomeState(
    states: seq<Store>, s: Store, cfg: Settings, ids: seq<Id>, reading: Time, draw: nat -> D.Draw)
    requires FiredOneByOne(states, s, cfg, ids, reading, draw)
    ensures 0 < |states|
  {
  }

  lemma {:induction false} LosingRaises(s: Store, id: Id, d: D.Draw)
    ensures LosesOutcome(s, id, d) <==> id in s.schedules && !d.committed
  {
  }

  lemma {:induction false} OneFired(
    states: seq<Store>, s: Store, cfg: Settings, ids: seq<Id>, reading: Time, draw: nat -> D.Draw, raised: bool,
    r: D.FireResult) returns (more: seq<Store>)
    requires ids != [] && FiredOneByOne(states, s, cfg, ids[..|ids| - 1], reading, draw)
    requires StopsWhereLost(states, ids[..|ids| - 1], draw, raised)
    requires var k, last := |ids| - 1, states[|states| - 1];
             FiringLeaves(last, r.store, cfg, ids[k], reading, draw(k))
             && (LosesOutcome(last, ids[k], draw(k)) <==> r.raised)
    ensures FiredOneByOne(more, s, cfg, ids, reading, draw) && 0 < |more|
    ensures StopsWhereLost(more, ids, draw, raised || r.raised)
    ensures more[|more| - 1] == if raised then states[|states| - 1] else r.store
  {
    hide FiringLeaves, LosesOutcome;
    var k := |ids| - 1;
    var earlier := ids[..k];
    assert forall i | 0 <= i < k :: earlier[i] == ids[i];
    more := if raised then states else states + [r.store];
    forall i | 0 <= i < |more| - 1
      ensures FiringLeaves(more[i], more[i + 1], cfg, ids[i], reading, draw(i))
      ensures LosesOutcome(more[i], ids[i], draw(i)) <==> (raised || r.raised) && i == |more| - 2
    {
      if i < |states| - 1 { assert ids[i] == earlier[i] && more[i] == states[i] && more[i + 1] == states[i + 1]; }
    }
  }

  /**
   * A tick fires its claims in order, all of them unless an outcome is lost on the way: the firing that loses it is the
   * last one, and the tick raises.
   */
  lemma {:induction false} FiresInOrder(s: Store, cfg: Settings, ids: seq<Id>, reading: Time, draw: nat -> D.Draw)
    returns (states: seq<Store>)
    ensures var tally := D.FireAll(s, cfg, ids, reading, draw);
            && FiredOneByOne(states, s, cfg, ids, reading, draw) && states[|states| - 1] == tally.store
            && StopsWhereLost(states, ids, draw, tally.raised)
    decreases |ids|
  {
    states := [s];
    if ids != [] {
      hide D.FireClaim, FiringLeaves, LosesOutcome, StopsWhereLost, FiredOneByOne;
      var k := |ids| - 1;
      var earlier, d := ids[..k], draw(k);
      states := FiresInOrder(s, cfg, earlier, reading, draw);
      var before, tally := D.FireAll(s, cfg, earlier, reading, draw), D.FireAll(s, cfg, ids, reading, draw);
      var r := D.FireClaim(before.store, cfg, ids[k], reading, d.run, d.now, d.world, d.committed);
      assert if before.raised then tally == before else tally.store == r.store && tally.raised == r.raised;
      hide D.FireAll;
      OneFiringLeaves(before.store, cfg, ids[k], reading, d);
      LosingRaises(before.store, ids[k], d);
      assert 0 < |states| by { SomeState(states, s, cfg, earlier, reading, draw); }
      states := OneFired(states, s, cfg, ids, reading, draw, before.raised, r);
    }
  }

  // ---------- how many a tick fires

  /** The run ids a tick draws are new, and no two are the same. */
  predicate NewDraws(s: Store, ids: seq<Id>, draw: nat -> D.Draw) {
    && (forall i | 0 <= i < |ids| :: draw(i).run !in s.runs)
    && (forall i, j | 0 <= i < j < |ids| :: draw(i).run != draw(j).run)
  }

  lemma {:induction false} OneFiring(
    s: Store, cfg: Settings, id: Id, reading: Time, d: D.Draw)
    requires d.run !in s.runs
    ensures var r := D.FireClaim(s, cfg, id, reading, d.run, d.now, d.world, d.committed);
            r.store.runs.Keys == s.runs.Keys + if r.run.Some? then {d.run} else {}
  {
    hide Schedules.Fire, FiringSucceeds;
    if id in s.schedules {
      FireMakes(s, cfg, id, d.run, d.now, d.world);
      MadeKeys(s, Schedules.Fire(s, cfg, id, d.run, d.now, d.world).store, cfg, id, d.run, d.now, d.world);
    }
  }

  lemma {:induction false} MadeKeys(
    s: Store, t: Store, cfg: Settings, id: Id, runId: Id, now: Time, world: World)
    requires id in s.schedules && runId !in s.runs && FiringMakes(s, t, cfg, id, runId, now, world)
    ensures t.runs.Keys == if FiringSucceeds(s, cfg, id, world) then s.runs.Keys + {runId} else s.runs.Keys
  {
    hide CanStart, Fresh, ImageOf, Masked;
  }

  function Drawn(n: nat, draw: nat -> D.Draw): set<Id> {
    set i | 0 <= i < n :: draw(i).run
  }

  lemma {:induction false} NextDraw(s: Store, ids: seq<Id>, draw: nat -> D.Draw)
    requires NewDraws(s, ids, draw) && ids != []
    ensures var k := |ids| - 1;
            && NewDraws(s, ids[..k], draw) && draw(k).run !in s.runs && draw(k).run !in Drawn(k, draw)
            && Drawn(k + 1, draw) == Drawn(k, draw) + {draw(k).run}
  {
  }

  lemma {:induction false} RunsAreDrawn(
    s: Store, cfg: Settings, ids: seq<Id>, reading: Time, draw: nat -> D.Draw)
    requires NewDraws(s, ids, draw)
    ensures var runs := D.FireAll(s, cfg, ids, reading, draw).store.runs;
            s.runs.Keys <= runs.Keys <= s.runs.Keys + Drawn(|ids|, draw)
    decreases |ids|
  {
    hide D.FireClaim, NewDraws, Drawn;
    if ids != [] {
      var k := |ids| - 1;
      NextDraw(s, ids, draw);
      RunsAreDrawn(s, cfg, ids[..k], reading, draw);
      var before, d := D.FireAll(s, cfg, ids[..k], reading, draw), draw(k);
      if !before.raised { OneFiring(before.store, cfg, ids[k], reading, d); }
    }
  }

  /** What has been counted is the number of runs added, but for one whose outcome could not be kept. */
  predicate Counted(first: set<Id>, tally: D.Tally) {
    var added := |tally.store.runs.Keys - first|;
    if tally.raised then tally.fired <= added <= tally.fired + 1 else tally.fired == added
  }

  lemma {:induction false} OneCounted(first: set<Id>, before: D.Tally, r: D.FireResult, id: Id, tally: D.Tally)
    requires !before.raised && Counted(first, before) && first <= before.store.runs.Keys
    requires id !in before.store.runs
    requires r.store.runs.Keys == before.store.runs.Keys + if r.run.Some? then {id} else {}
    requires tally == D.Tally(r.store, before.fired + if r.run.Some? && !r.raised then 1 else 0, r.raised)
    ensures Counted(first, tally)
  {
    if r.run.Some? {
      assert r.store.runs.Keys - first == before.store.runs.Keys - first + {id};
    } else {
      assert r.store.runs.Keys == before.store.runs.Keys;
    }
  }

  /**
   * What a tick counts is the number of runs it has added. One whose outcome could not be kept is raised: it is not
   * counted, though its run may be there, and nothing is fired after it.
   */
  lemma {:induction false} CountIsRuns(
    s: Store, cfg: Settings, ids: seq<Id>, reading: Time, draw: nat -> D.Draw)
    requires NewDraws(s, ids, draw)
    ensures Counted(s.runs.Keys, D.FireAll(s, cfg, ids, reading, draw))
    decreases |ids|
  {
    if ids == [] {
      assert s.runs.Keys - s.runs.Keys == {};
    } else {
      hide D.FireClaim, NewDraws, Drawn, Counted;
      var k := |ids| - 1;
      NextDraw(s, ids, draw);
      CountIsRuns(s, cfg, ids[..k], reading, draw);
      RunsAreDrawn(s, cfg, ids[..k], reading, draw);
      var before, d := D.FireAll(s, cfg, ids[..k], reading, draw), draw(k);
      var tally := D.FireAll(s, cfg, ids, reading, draw);
      if !before.raised {
        var r := D.FireClaim(before.store, cfg, ids[k], reading, d.run, d.now, d.world, d.committed);
        assert tally == D.Tally(r.store, before.fired + if r.run.Some? && !r.raised then 1 else 0, r.raised);
        OneFiring(before.store, cfg, ids[k], reading, d);
        hide D.FireAll;
        OneCounted(s.runs.Keys, before, r, d.run, tally);
      }
    }
  }
}
