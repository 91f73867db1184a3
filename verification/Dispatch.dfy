/** What the dispatcher never does: replay, fire twice, or fire too late; with any number of dispatchers. */
module Dispatch {
  import opened Effects
  import opened Lifecycle
  import opened Operator
  import opened Options
  import opened Records
  import D = Dispatcher
  import Ordering
  import Reconciler
  import Schedules

  /** What the cron library promises of every expression. */
  ghost predicate LawfulCalendar(cal: Schedules.Calendar) {
    forall c: Cron :: Schedules.Lawful(cal, c)
  }

  // ---------- what holds in every reachable state

  /** A row is enabled exactly if it has an anchor, which is an occurrence of its expression. */
  predicate Anchored(cal: Schedules.Calendar, row: Schedule) {
    && row.enabled == row.nextFireAt.Some?
    && (row.nextFireAt.Some? ==> Schedules.Occurs(cal, row.cron, row.nextFireAt.value))
  }

  predicate AllAnchored(u: Setup, y: System) {
    forall id | id in y.store.schedules :: Anchored(u.cal, y.store.schedules[id])
  }

  /** A claim is of an occurrence, made at or after it and no later than the grace allows. */
  predicate ClaimSound(u: Setup, c: Claim, clock: Time) {
    && Schedules.Occurs(u.cal, c.cron, c.planned)
    && c.planned <= c.reading <= clock && c.reading - c.planned <= u.cfg.missedGrace
  }

  predicate AllClaimsSound(u: Setup, y: System) {
    forall i | 0 <= i < |y.claims| :: ClaimSound(u, y.claims[i], y.clock)
  }

  /** The anchor of a schedule lies after everything claimed for it. */
  predicate ClaimsBehind(y: System) {
    forall i, id | 0 <= i < |y.claims| && id in y.store.schedules ::
      y.claims[i].schedule == id && y.store.schedules[id].nextFireAt.Some? ==>
        y.claims[i].planned < y.store.schedules[id].nextFireAt.value
  }

  /** The planned instants claimed for one schedule strictly increase. */
  predicate ClaimsIncrease(claims: seq<Claim>) {
    forall i, j | 0 <= i < j < |claims| ::
      claims[i].schedule == claims[j].schedule ==> claims[i].planned < claims[j].planned
  }

  /** No two runs were made for one claim, and none for a claim still in flight. */
  predicate FiredOnce(y: System) {
    && (forall i, j | 0 <= i < j < |y.fired| :: y.fired[i].claim != y.fired[j].claim)
    && (forall i | 0 <= i < |y.fired| :: y.fired[i].claim !in y.inFlight && y.fired[i].claim < |y.claims|)
  }

  predicate Orderly(u: Setup, y: System) {
    AllAnchored(u, y) && AllClaimsSound(u, y) && ClaimsBehind(y) && ClaimsIncrease(y.claims) && FiredOnce(y)
  }

  // ---------- one row

  predicate Claiming(u: Setup, y: System, e: Event, id: Id) {
    e.ClaimDue? && id in D.Batch(y.store.schedules, u.cfg, e.reading, e.locked)
  }

  /** A row keeps its anchor, or gets one after the clock, or is claimed and gets one after the reading. */
  lemma {:induction false} RowAnchors(u: Setup, y: System, e: Event, id: Id)
    requires Enabled(y, e) && id in y.store.schedules && Anchored(u.cal, y.store.schedules[id])
    requires LawfulCalendar(u.cal)
    ensures var before, after := y.store.schedules[id], ScheduleAfter(u, y, e, id);
            && Anchored(u.cal, after)
            && (after.nextFireAt.Some? ==>
                  || (after.nextFireAt == before.nextFireAt && !Claiming(u, y, e, id))
                  || (y.clock < after.nextFireAt.value && !e.ClaimDue?)
                  || (&& Claiming(u, y, e, id) && before.nextFireAt.Some?
                      && before.nextFireAt.value <= e.reading < after.nextFireAt.value))
  {
    hide D.Batch, D.IsBusy, Schedules.Fire, Schedules.Occurs, Schedules.Resolved, Masked;
    var row := y.store.schedules[id];
    assert forall c: Cron, b: Time | u.cal.next(c, b).Some? ::
        b < u.cal.next(c, b).value && Schedules.Occurs(u.cal, c, u.cal.next(c, b).value) by {
      forall c: Cron, b: Time | u.cal.next(c, b).Some?
        ensures b < u.cal.next(c, b).value && Schedules.Occurs(u.cal, c, u.cal.next(c, b).value)
      {
        assert Schedules.Lawful(u.cal, c);
      }
    }
    hide Schedules.Lawful, LawfulCalendar;
    if Claiming(u, y, e, id) {
      assert id in D.Due(y.store.schedules, e.reading, e.locked);
    }
  }

  lemma {:induction false} NewAnchored(u: Setup, y: System, e: Event, row: Schedule)
    requires LawfulCalendar(u.cal) && e.CreateSchedule? && row.cron == e.definition.cron
    requires row.enabled == e.definition.enabled
    requires row.nextFireAt == if row.enabled then u.cal.next(row.cron, y.clock) else None
    requires row.enabled ==> row.nextFireAt.Some?
    ensures Anchored(u.cal, row) && (row.nextFireAt.Some? ==> y.clock < row.nextFireAt.value)
  {
    assert Schedules.Lawful(u.cal, row.cron);
  }

  // ---------- the log of claims

  /** What an event adds to the log of claims. */
  function Added(u: Setup, y: System, e: Event): seq<Claim> {
    if e.ClaimDue? then NewClaims(y.store, D.ClaimDue(y.store, u.cfg, u.cal, e.reading, e.locked).toFire, e.reading)
    else []
  }

  lemma {:induction false} ToFireDistinct(s: Store, batch: seq<Id>, cal: Schedules.Calendar, cfg: Settings, now: Time)
    requires (forall id | id in batch :: id in s.schedules) && Ordering.Distinct(batch)
    ensures Ordering.Distinct(D.ToFire(s, batch, cal, cfg, now))
  {
    hide D.Decide, D.IsBusy;
    if batch != [] {
      var k := |batch| - 1;
      var rest := D.ToFire(s, batch[..k], cal, cfg, now);
      ToFireDistinct(s, batch[..k], cal, cfg, now);
      assert batch[k] !in batch[..k];
      assert forall i | 0 <= i < |rest| :: rest[i] in rest && rest[i] != batch[k];
      assert Ordering.Distinct(rest + [batch[k]]);
    }
  }

  lemma {:induction false} BatchDistinct(rows: map<Id, Schedule>, cfg: Settings, now: Time, locked: set<Id>)
    ensures Ordering.Distinct(D.Batch(rows, cfg, now, locked))
  {
    Ordering.OrderedDistinct(D.ByAnchor(rows), Ordering.Sorted(D.ByAnchor(rows), D.Due(rows, now, locked)));
    hide D.ByAnchor, D.Due, Ordering.Sorted, Ordering.Before;
  }

  /** Where a claim comes from: a due row of the batch that is neither disabled, missed nor held back. */
  predicate FromRow(u: Setup, y: System, e: Event, c: Claim)
    requires e.ClaimDue?
  {
    && Claiming(u, y, e, c.schedule) && c.schedule in y.store.schedules
    && var row := y.store.schedules[c.schedule];
       && D.Decide(row, D.IsBusy(y.store.runs, c.schedule), u.cal, u.cfg, e.reading) == D.Claimed
       && D.IsDue(row, e.reading) && row.nextFireAt == Some(c.planned) && c.cron == row.cron && c.reading == e.reading
  }

  predicate DistinctSchedules(claims: seq<Claim>) {
    forall i, j | 0 <= i < j < |claims| :: claims[i].schedule != claims[j].schedule
  }

  lemma {:induction false} AddedFromRows(u: Setup, y: System, e: Event)
    requires Enabled(y, e) && e.ClaimDue?
    ensures forall c | c in Added(u, y, e) :: FromRow(u, y, e, c)
    ensures DistinctSchedules(Added(u, y, e))
  {
    hide D.Batch, D.Decide, D.IsBusy, D.IsDue, D.ToFire;
    var s := y.store;
    var batch := D.Batch(s.schedules, u.cfg, e.reading, e.locked);
    BatchDistinct(s.schedules, u.cfg, e.reading, e.locked);
    ToFireDistinct(s, batch, u.cal, u.cfg, e.reading);
    var ids, added := D.ToFire(s, batch, u.cal, u.cfg, e.reading), Added(u, y, e);
    assert forall i | 0 <= i < |ids| :: added[i].schedule == ids[i];
    forall c | c in added ensures FromRow(u, y, e, c) {
      var i :| 0 <= i < |added| && added[i] == c;
      assert ids[i] in ids && ids[i] in batch;
    }
  }

  lemma {:induction false} LogOfStep(u: Setup, y: System, e: Event)
    requires Enabled(y, e)
    ensures var z := Step(u, y, e);
            && z.claims == y.claims + Added(u, y, e) && (!e.ClaimDue? ==> z.claims == y.claims)
            && y.clock <= z.clock && z.store == StoreAfter(u, y, e)
            && (forall i | i in z.inFlight :: i in y.inFlight || |y.claims| <= i < |z.claims|)
            && (e.FireClaim? || e.LoseClaim? ==> e.claim !in z.inFlight)
            && (|| z.fired == y.fired
                || (e.FireClaim? && |z.fired| == |y.fired| + 1 && z.fired == y.fired + [Fired(e.claim, e.id)]))
  {
    hide StoreAfter, D.ToFire, D.Batch, D.ClaimRows, Reconciler.TickSucceeds, Schedules.Fire, Schedules.ApplyFireResult;
  }

  // ---------- one step

  lemma {:induction false} StepAnchored(u: Setup, y: System, e: Event)
    requires Enabled(y, e) && AllAnchored(u, y) && LawfulCalendar(u.cal)
    ensures AllAnchored(u, Step(u, y, e))
  {
    hide StoreAfter, Step, ScheduleAfter, LawfulCalendar, Anchored, Claiming, Added;
    LogOfStep(u, y, e);
    SchedulesOfStep(u, y, e);
    var rows := StoreAfter(u, y, e).schedules;
    forall id | id in rows ensures Anchored(u.cal, rows[id]) {
      if id in y.store.schedules { RowAnchors(u, y, e, id); } else { NewAnchored(u, y, e, rows[id]); }
    }
  }

  lemma {:induction false} StillSound(u: Setup, c: Claim, before: Time, after: Time)
    requires ClaimSound(u, c, before) && before <= after
    ensures ClaimSound(u, c, after)
  {
  }

  lemma {:induction false} NewClaimSound(u: Setup, y: System, e: Event, c: Claim)
    requires Enabled(y, e) && AllAnchored(u, y) && e.ClaimDue? && FromRow(u, y, e, c)
    ensures ClaimSound(u, c, y.clock)
  {
    hide D.IsBusy, Claiming, Schedules.Occurs;
  }

  lemma {:induction false} StepClaimsSound(u: Setup, y: System, e: Event)
    requires Enabled(y, e) && AllAnchored(u, y) && AllClaimsSound(u, y)
    ensures AllClaimsSound(u, Step(u, y, e))
  {
    hide StoreAfter, Step, Added, FromRow, ClaimSound, AllAnchored;
    LogOfStep(u, y, e);
    if e.ClaimDue? { AddedFromRows(u, y, e); }
    var z := Step(u, y, e);
    forall i | 0 <= i < |z.claims| ensures ClaimSound(u, z.claims[i], z.clock) {
      if i < |y.claims| {
        StillSound(u, y.claims[i], y.clock, z.clock);
      } else {
        assert z.claims[i] in Added(u, y, e);
        NewClaimSound(u, y, e, z.claims[i]);
        StillSound(u, z.claims[i], y.clock, z.clock);
      }
    }
  }

  /** A claimed instant lies before every anchor its schedule has afterwards. */
  lemma {:induction false} StepBehind(u: Setup, y: System, e: Event)
    requires Enabled(y, e) && AllAnchored(u, y) && AllClaimsSound(u, y) && ClaimsBehind(y) && LawfulCalendar(u.cal)
    ensures ClaimsBehind(Step(u, y, e))
  {
    hide StoreAfter, Step, ScheduleAfter, LawfulCalendar, AllAnchored, Added, FromRow, ClaimsBehind, AllClaimsSound;
    LogOfStep(u, y, e);
    SchedulesOfStep(u, y, e);
    if e.ClaimDue? { AddedFromRows(u, y, e); }
    var z := Step(u, y, e);
    forall i, id | 0 <= i < |z.claims| && id in z.store.schedules && z.claims[i].schedule == id
                   && z.store.schedules[id].nextFireAt.Some?
      ensures z.claims[i].planned < z.store.schedules[id].nextFireAt.value
    {
      if i < |y.claims| {
        OldClaimBehind(u, y, e, i, id, z.store.schedules[id]);
      } else {
        assert z.claims[i] in Added(u, y, e);
        NewClaimBehind(u, y, e, z.claims[i], z.store.schedules[id]);
      }
    }
    BehindFrom(z);
  }

  lemma {:induction false} NewClaimBehind(u: Setup, y: System, e: Event, c: Claim, after: Schedule)
    requires Enabled(y, e) && AllAnchored(u, y) && LawfulCalendar(u.cal) && e.ClaimDue? && FromRow(u, y, e, c)
    requires c.schedule in StoreAfter(u, y, e).schedules && after == StoreAfter(u, y, e).schedules[c.schedule]
    requires after.nextFireAt.Some?
    ensures c.planned < after.nextFireAt.value
  {
    hide StoreAfter, ScheduleAfter, LawfulCalendar, Anchored, Claiming, D.Decide, D.IsBusy, D.IsDue;
    SchedulesOfStep(u, y, e);
    RowAnchors(u, y, e, c.schedule);
  }

  lemma {:induction false} BehindFrom(y: System)
    requires forall i, id | 0 <= i < |y.claims| && id in y.store.schedules && y.claims[i].schedule == id
                            && y.store.schedules[id].nextFireAt.Some? ::
               y.claims[i].planned < y.store.schedules[id].nextFireAt.value
    ensures ClaimsBehind(y)
  {
  }

  lemma {:induction false} OldClaimBehind(u: Setup, y: System, e: Event, i: nat, id: Id, after: Schedule)
    requires Enabled(y, e) && AllAnchored(u, y) && AllClaimsSound(u, y) && ClaimsBehind(y) && LawfulCalendar(u.cal)
    requires i < |y.claims| && y.claims[i].schedule == id && after.nextFireAt.Some?
    requires id in StoreAfter(u, y, e).schedules && after == StoreAfter(u, y, e).schedules[id]
    ensures y.claims[i].planned < after.nextFireAt.value
  {
    hide StoreAfter, ScheduleAfter, LawfulCalendar, Anchored, Claiming, Schedules.Occurs;
    SchedulesOfStep(u, y, e);
    assert ClaimSound(u, y.claims[i], y.clock);
    if id in y.store.schedules { RowAnchors(u, y, e, id); } else { NewAnchored(u, y, e, after); }
  }

  lemma {:induction false} StepIncreases(u: Setup, y: System, e: Event)
    requires Enabled(y, e) && ClaimsBehind(y) && ClaimsIncrease(y.claims)
    ensures ClaimsIncrease(Step(u, y, e).claims)
  {
    hide StoreAfter, Step, Added, FromRow, ClaimsBehind;
    LogOfStep(u, y, e);
    if e.ClaimDue? { AddedFromRows(u, y, e); }
    var claims, n := Step(u, y, e).claims, |y.claims|;
    var added := Added(u, y, e);
    assert forall i | n <= i < |claims| :: claims[i] == added[i - n];
    assert !e.ClaimDue? ==> |claims| == n;
    assert forall i, j | n <= i < j < |claims| :: claims[i].schedule != claims[j].schedule;
    forall i, j | 0 <= i < j < |claims| && claims[i].schedule == claims[j].schedule
      ensures claims[i].planned < claims[j].planned
    {
      if i < n <= j {
        assert claims[j] in Added(u, y, e);
        LaterClaim(u, y, e, i, claims[j]);
      }
    }
  }

  lemma {:induction false} LaterClaim(u: Setup, y: System, e: Event, i: nat, c: Claim)
    requires e.ClaimDue? && ClaimsBehind(y) && FromRow(u, y, e, c) && i < |y.claims|
    requires y.claims[i].schedule == c.schedule
    ensures y.claims[i].planned < c.planned
  {
    hide Claiming, D.Decide, D.IsBusy, D.IsDue;
  }

  lemma {:induction false} StepFiredOnce(u: Setup, y: System, e: Event)
    requires Sound(y) && Enabled(y, e) && FiredOnce(y)
    ensures FiredOnce(Step(u, y, e))
  {
    hide StoreAfter, Step, Added;
    LogOfStep(u, y, e);
    StepSound(u, y, e);
  }

  // ---------- every sequence of events

  /**
   * With any number of dispatchers, stale readings, lost claims and edits in between: enabled rows are those with an
   * anchor, anchors and claims are occurrences, the instants claimed for one schedule strictly increase and are
   * claimed within the grace, and no two runs are made for one claim.
   */
  lemma {:induction false} AlwaysOrderly(u: Setup, y: System, events: seq<Event>)
    requires Sound(y) && Orderly(u, y) && Possible(u, y, events) && LawfulCalendar(u.cal)
    ensures Orderly(u, After(u, y, events))
    decreases |events|
  {
    hide Sound, AllAnchored, AllClaimsSound, ClaimsBehind, ClaimsIncrease, FiredOnce, Step, Enabled, LawfulCalendar;
    if events != [] {
      var n := |events| - 1;
      var z := After(u, y, events[..n]);
      AfterSound(u, y, events[..n]);
      AlwaysOrderly(u, y, events[..n]);
      StepAnchored(u, z, events[n]);
      StepClaimsSound(u, z, events[n]);
      StepBehind(u, z, events[n]);
      StepIncreases(u, z, events[n]);
      StepFiredOnce(u, z, events[n]);
    }
  }

  /** Two runs the dispatcher made for one schedule were made for two different planned instants. */
  lemma {:induction false} NoReplay(u: Setup, y: System, events: seq<Event>, i: nat, j: nat)
    requires Initial(y) && Possible(u, y, events) && LawfulCalendar(u.cal)
    requires i < j < |After(u, y, events).fired|
    ensures var z := After(u, y, events);
            && z.fired[i].claim < |z.claims| && z.fired[j].claim < |z.claims|
            && var a, b := z.claims[z.fired[i].claim], z.claims[z.fired[j].claim];
               a.schedule == b.schedule ==> a.planned != b.planned
  {
    hide After, Possible, LawfulCalendar, AllAnchored, AllClaimsSound, ClaimsBehind;
    InitiallyOrderly(u, y);
    AlwaysOrderly(u, y, events);
  }

  lemma {:induction false} InitiallyOrderly(u: Setup, y: System)
    requires Initial(y)
    ensures Sound(y) && Orderly(u, y)
  {
  }
}
