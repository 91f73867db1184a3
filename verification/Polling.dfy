/** What polling claims of one schedule nobody edits: exactly which occurrences, and when that is all of them. */
module Polling {
  import opened Dispatch
  import opened Effects
  import opened Operator
  import opened Options
  import opened Records
  import D = Dispatcher
  import Schedules

  // ---------- occurrences

  /** The occurrences after `lo` and up to `hi`, in order. */
  function Occurrences(cal: Schedules.Calendar, c: Cron, lo: Time, hi: Time): seq<Time>
    decreases hi - lo
  {
    if hi <= lo then []
    else Occurrences(cal, c, lo, hi - 1) + if Schedules.Occurs(cal, c, hi) then [hi] else []
  }

  lemma {:induction false} OccurrencesSplit(cal: Schedules.Calendar, c: Cron, lo: Time, mid: Time, hi: Time)
    requires lo <= mid <= hi
    ensures Occurrences(cal, c, lo, hi) == Occurrences(cal, c, lo, mid) + Occurrences(cal, c, mid, hi)
    decreases hi - mid
  {
    if mid < hi { OccurrencesSplit(cal, c, lo, mid, hi - 1); }
  }

  lemma {:induction false} NoOccurrences(cal: Schedules.Calendar, c: Cron, lo: Time, hi: Time)
    requires forall t | lo < t <= hi :: !Schedules.Occurs(cal, c, t)
    ensures Occurrences(cal, c, lo, hi) == []
    decreases hi - lo
  {
    if lo < hi { NoOccurrences(cal, c, lo, hi - 1); }
  }

  lemma {:induction false} InOccurrences(cal: Schedules.Calendar, c: Cron, lo: Time, hi: Time, t: Time)
    ensures t in Occurrences(cal, c, lo, hi) <==> lo < t <= hi && Schedules.Occurs(cal, c, t)
    decreases hi - lo
  {
    if lo < hi { InOccurrences(cal, c, lo, hi - 1, t); }
  }

  predicate Increasing(times: seq<Time>) {
    forall i, j | 0 <= i < j < |times| :: times[i] < times[j]
  }

  lemma {:induction false} OccurrencesIncrease(cal: Schedules.Calendar, c: Cron, lo: Time, hi: Time)
    ensures Increasing(Occurrences(cal, c, lo, hi))
    decreases hi - lo
  {
    if lo < hi {
      var all := Occurrences(cal, c, lo, hi - 1);
      OccurrencesIncrease(cal, c, lo, hi - 1);
      forall i | 0 <= i < |all| ensures all[i] < hi { InOccurrences(cal, c, lo, hi - 1, all[i]); }
      assert Increasing(all + [hi]);
    }
  }

  /** From a base on, the next occurrence comes first. */
  lemma {:induction false} NextComesFirst(cal: Schedules.Calendar, c: Cron, lo: Time, hi: Time)
    requires Schedules.Lawful(cal, c)
    ensures match cal.next(c, lo)
            case Some(t) =>
              Occurrences(cal, c, lo, hi) == if t <= hi then [t] + Occurrences(cal, c, t, hi) else []
            case None => Occurrences(cal, c, lo, hi) == []
  {
    match cal.next(c, lo)
    case Some(t) =>
      if t <= hi {
        OccurrencesSplit(cal, c, lo, t, hi);
        NoOccurrences(cal, c, lo, t - 1);
      } else {
        NoOccurrences(cal, c, lo, hi);
      }
    case None => NoOccurrences(cal, c, lo, hi);
  }

  // ---------- what one tick claims

  /** What a tick claims of a schedule anchored from `base`: its next occurrence, if that is due and not missed. */
  function TickClaims(u: Setup, c: Cron, base: Time, reading: Time): seq<Time> {
    match u.cal.next(c, base)
    case Some(t) => if t <= reading && reading - t <= u.cfg.missedGrace then [t] else []
    case None => []
  }

  /** A tick claims all occurrences since the last one exactly if there is at most one and it is not missed. */
  lemma {:induction false} TickClaimsAll(u: Setup, c: Cron, base: Time, reading: Time)
    requires Schedules.Lawful(u.cal, c)
    ensures TickClaims(u, c, base, reading) == Occurrences(u.cal, c, base, reading) <==>
            forall t | t in Occurrences(u.cal, c, base, reading) ::
              u.cal.next(c, base) == Some(t) && reading - t <= u.cfg.missedGrace
  {
    var all := Occurrences(u.cal, c, base, reading);
    NextComesFirst(u.cal, c, base, reading);
    hide Occurrences, Schedules.Lawful, Schedules.Occurs;
    if u.cal.next(c, base).Some? && u.cal.next(c, base).value <= reading {
      var t := u.cal.next(c, base).value;
      var rest := Occurrences(u.cal, c, t, reading);
      assert all == [t] + rest && t in all;
      if rest != [] {
        assert rest[0] in rest && rest[0] in all;
        InOccurrences(u.cal, c, t, reading, rest[0]);
      }
    }
  }

  // ---------- the claims of one schedule

  /** The planned instants claimed for a schedule, in the order of the log. */
  function Planned(claims: seq<Claim>, id: Id): seq<Time> {
    if claims == [] then []
    else
      var last := claims[|claims| - 1];
      Planned(claims[..|claims| - 1], id) + if last.schedule == id then [last.planned] else []
  }

  lemma {:induction false} PlannedConcat(a: seq<Claim>, b: seq<Claim>, id: Id)
    ensures Planned(a + b, id) == Planned(a, id) + Planned(b, id)
  {
    if b == [] {
      assert a + b == a;
    } else {
      assert (a + b)[..|a + b| - 1] == a + b[..|b| - 1];
      PlannedConcat(a, b[..|b| - 1], id);
    }
  }

  lemma {:induction false} PlannedNone(claims: seq<Claim>, id: Id)
    requires forall c | c in claims :: c.schedule != id
    ensures Planned(claims, id) == []
  {
    if claims != [] {
      assert claims[|claims| - 1] in claims;
      PlannedNone(claims[..|claims| - 1], id);
    }
  }

  lemma {:induction false} PlannedOne(claims: seq<Claim>, id: Id, k: nat)
    requires DistinctSchedules(claims) && k < |claims| && claims[k].schedule == id
    ensures Planned(claims, id) == [claims[k].planned]
  {
    assert claims == claims[..k] + ([claims[k]] + claims[k + 1..]);
    PlannedConcat(claims[..k], [claims[k]] + claims[k + 1..], id);
    PlannedConcat([claims[k]], claims[k + 1..], id);
    assert forall c | c in claims[..k] :: c.schedule != id;
    assert forall c | c in claims[k + 1..] :: c.schedule != id;
    PlannedNone(claims[..k], id);
    PlannedNone(claims[k + 1..], id);
    assert Planned([claims[k]], id) == Planned([claims[k]][..0], id) + [claims[k].planned];
  }

  // ---------- one event

  /** An enabled schedule that may overlap, anchored at its first occurrence after `base`. */
  predicate Tracks(u: Setup, y: System, id: Id, c: Cron, base: Time) {
    && id in y.store.schedules
    && var row := y.store.schedules[id];
       && row.enabled && row.overlap == Allow && row.cron == c
       && row.nextFireAt.Some? && row.nextFireAt == u.cal.next(c, base)
  }

  predicate Edits(e: Event, id: Id) {
    || ((e.UpdateSchedule? || e.SetEnabled? || e.DeleteSchedule?) && e.id == id)
    || e.DeleteAllSchedules?
  }

  /** A tick at which the due rows fit the batch and the row is not locked. */
  predicate Fits(u: Setup, y: System, e: Event, id: Id) {
    e.ClaimDue? ==>
      id !in e.locked && |D.Due(y.store.schedules, e.reading, e.locked)| <= u.cfg.batchSize
  }

  /** The latest reading of the clock the schedule has been looked at with. */
  function Advance(e: Event, base: Time): Time {
    if e.ClaimDue? && base < e.reading then e.reading else base
  }

  ghost predicate Endless(cal: Schedules.Calendar, c: Cron) {
    forall b: Time :: cal.next(c, b).Some?
  }

  lemma {:induction false} DueIsBatched(u: Setup, y: System, e: Event, id: Id)
    requires e.ClaimDue? && Fits(u, y, e, id) && id in y.store.schedules
    ensures Claiming(u, y, e, id) <==> D.IsDue(y.store.schedules[id], e.reading)
  {
    hide D.IsDue, D.ByAnchor;
    assert id in D.Due(y.store.schedules, e.reading, e.locked) <==> D.IsDue(y.store.schedules[id], e.reading);
  }

  lemma {:induction false} StepTracks(u: Setup, y: System, e: Event, id: Id, c: Cron, base: Time)
    requires Enabled(y, e) && Tracks(u, y, id, c, base) && !Edits(e, id) && Fits(u, y, e, id)
    requires Schedules.Lawful(u.cal, c) && Endless(u.cal, c)
    ensures Tracks(u, Step(u, y, e), id, c, Advance(e, base))
  {
    hide StoreAfter, Step, Added, ScheduleAfter, Schedules.Lawful, Endless, Fits;
    LogOfStep(u, y, e);
    SchedulesOfStep(u, y, e);
    if e.ClaimDue? { RowAtTick(u, y, e, id, c, base); } else { RowBesideTicks(u, y, e, id); }
  }

  /** Between ticks the columns that are tracked stay as they are. */
  lemma {:induction false} RowBesideTicks(u: Setup, y: System, e: Event, id: Id)
    requires Enabled(y, e) && id in y.store.schedules && !Edits(e, id) && !e.ClaimDue?
    ensures var before, after := y.store.schedules[id], ScheduleAfter(u, y, e, id);
            && after.enabled == before.enabled && after.overlap == before.overlap && after.cron == before.cron
            && after.nextFireAt == before.nextFireAt
  {
    hide Schedules.Fire;
  }

  lemma {:induction false} RowAtTick(u: Setup, y: System, e: Event, id: Id, c: Cron, base: Time)
    requires Enabled(y, e) && Tracks(u, y, id, c, base) && Fits(u, y, e, id) && e.ClaimDue?
    requires Schedules.Lawful(u.cal, c) && Endless(u.cal, c)
    ensures var before, after := y.store.schedules[id], ScheduleAfter(u, y, e, id);
            && after.enabled && after.overlap == before.overlap && after.cron == before.cron
            && after.nextFireAt.Some? && after.nextFireAt == u.cal.next(c, Advance(e, base))
  {
    hide D.Batch, D.IsBusy, Schedules.Lawful;
    DueIsBatched(u, y, e, id);
    SameNext(u.cal, c, base, e.reading);
  }

  /** Looking earlier than the next occurrence finds the same one. */
  lemma {:induction false} SameNext(cal: Schedules.Calendar, c: Cron, base: Time, reading: Time)
    requires Schedules.Lawful(cal, c) && cal.next(c, base).Some?
    ensures base <= reading < cal.next(c, base).value ==> cal.next(c, reading) == cal.next(c, base)
    ensures reading <= base ==> reading < cal.next(c, base).value
  {
    hide Schedules.Lawful, Schedules.Occurs;
    var t := cal.next(c, base).value;
    Schedules.NextOccurs(cal, c, base);
    if base <= reading < t {
      Schedules.NextIsLeast(cal, c, reading, t);
      Schedules.NextOccurs(cal, c, reading);
      Schedules.NextIsLeast(cal, c, base, cal.next(c, reading).value);
    }
  }

  lemma {:induction false} StepPlanned(u: Setup, y: System, e: Event, id: Id, c: Cron, base: Time)
    requires Enabled(y, e) && Tracks(u, y, id, c, base) && Fits(u, y, e, id)
    requires Schedules.Lawful(u.cal, c) && Endless(u.cal, c)
    ensures Planned(Step(u, y, e).claims, id)
            == Planned(y.claims, id) + if e.ClaimDue? then TickClaims(u, c, base, e.reading) else []
  {
    hide StoreAfter, Step, Added, Planned, D.Batch, D.IsBusy, FromRow;
    LogOfStep(u, y, e);
    if e.ClaimDue? {
      PlannedConcat(y.claims, Added(u, y, e), id);
      PlannedAtTick(u, y, e, id, c, base);
    }
  }

  lemma {:induction false} PlannedAtTick(u: Setup, y: System, e: Event, id: Id, c: Cron, base: Time)
    requires Enabled(y, e) && Tracks(u, y, id, c, base) && Fits(u, y, e, id) && e.ClaimDue? && Endless(u.cal, c)
    ensures Planned(Added(u, y, e), id) == TickClaims(u, c, base, e.reading)
  {
    hide Planned, D.Batch, D.IsBusy, D.ToFire;
    AddedFromRows(u, y, e);
    DueIsBatched(u, y, e, id);
    var s, added := y.store, Added(u, y, e);
    var ids := D.ToFire(s, D.Batch(s.schedules, u.cfg, e.reading, e.locked), u.cal, u.cfg, e.reading);
    assert forall i | 0 <= i < |ids| :: added[i].schedule == ids[i];
    PlannedOfIds(added, ids, id);
  }

  /** A tick adds at most one claim of a schedule, and one exactly if it is among those to be fired. */
  lemma {:induction false} PlannedOfIds(added: seq<Claim>, ids: seq<Id>, id: Id)
    requires DistinctSchedules(added) && |added| == |ids|
    requires forall i | 0 <= i < |ids| :: added[i].schedule == ids[i]
    ensures id !in ids ==> Planned(added, id) == []
    ensures id in ids ==> exists c :: c in added && c.schedule == id && Planned(added, id) == [c.planned]
  {
    hide Planned;
    if id in ids {
      var k :| 0 <= k < |ids| && ids[k] == id;
      PlannedOne(added, id, k);
      assert added[k] in added;
    } else {
      forall a | a in added ensures a.schedule != id {
        var k :| 0 <= k < |added| && added[k] == a;
        assert ids[k] in ids;
      }
      PlannedNone(added, id);
    }
  }

  // ---------- every sequence of events

  /** Nobody edits the schedule, and at every tick it can be claimed if it is due. */
  predicate Undisturbed(u: Setup, y: System, events: seq<Event>, id: Id)
    requires Possible(u, y, events)
    decreases |events|
  {
    events == [] ||
    (var n := |events| - 1;
     && Undisturbed(u, y, events[..n], id) && !Edits(events[n], id) && Fits(u, After(u, y, events[..n]), events[n], id))
  }

  function LastReading(events: seq<Event>, base: Time): Time {
    if events == [] then base
    else
      var n := |events| - 1;
      Advance(events[n], LastReading(events[..n], base))
  }

  /** What the ticks among the events claim, one after the other. */
  function Polled(u: Setup, c: Cron, base: Time, events: seq<Event>): seq<Time> {
    if events == [] then []
    else
      var n, e := |events| - 1, events[|events| - 1];
      Polled(u, c, base, events[..n])
      + if e.ClaimDue? then TickClaims(u, c, LastReading(events[..n], base), e.reading) else []
  }

  /** Over any sequence of events the log gains exactly what each tick claims: one occurrence at most, none replayed. */
  lemma {:induction false} ClaimsArePolled(u: Setup, y: System, events: seq<Event>, id: Id, c: Cron, base: Time)
    requires Possible(u, y, events) && Undisturbed(u, y, events, id) && Tracks(u, y, id, c, base)
    requires Schedules.Lawful(u.cal, c) && Endless(u.cal, c)
    ensures Planned(After(u, y, events).claims, id) == Planned(y.claims, id) + Polled(u, c, base, events)
    ensures Tracks(u, After(u, y, events), id, c, LastReading(events, base))
    decreases |events|
  {
    hide Enabled, Step, Fits, Edits, Tracks, Planned, TickClaims, Advance, Schedules.Lawful, Endless;
    if events != [] {
      var n := |events| - 1;
      ClaimsArePolled(u, y, events[..n], id, c, base);
      StepTracks(u, After(u, y, events[..n]), events[n], id, c, LastReading(events[..n], base));
      StepPlanned(u, After(u, y, events[..n]), events[n], id, c, LastReading(events[..n], base));
    }
  }

  /** Ticks come at most `gap` after one another. */
  predicate Regular(events: seq<Event>, base: Time, gap: nat) {
    events == [] ||
    (var n := |events| - 1;
     && Regular(events[..n], base, gap)
     && (events[n].ClaimDue? ==> events[n].reading <= LastReading(events[..n], base) + gap))
  }

  ghost predicate Spaced(cal: Schedules.Calendar, c: Cron, gap: nat) {
    forall a: Time, b: Time | a < b && Schedules.Occurs(cal, c, a) && Schedules.Occurs(cal, c, b) :: gap <= b - a
  }

  lemma {:induction false} RegularTickClaimsAll(u: Setup, c: Cron, base: Time, reading: Time, gap: nat)
    requires Schedules.Lawful(u.cal, c) && Spaced(u.cal, c, gap) && reading <= base + gap && gap <= u.cfg.missedGrace
    ensures TickClaims(u, c, base, reading) == Occurrences(u.cal, c, base, reading)
  {
    hide Schedules.Lawful, Schedules.Occurs, Spaced, Occurrences, TickClaims;
    forall t | t in Occurrences(u.cal, c, base, reading)
      ensures u.cal.next(c, base) == Some(t) && reading - t <= u.cfg.missedGrace
    {
      InOccurrences(u.cal, c, base, reading, t);
      Schedules.NextIsLeast(u.cal, c, base, t);
      var first := u.cal.next(c, base).value;
      Schedules.NextOccurs(u.cal, c, base);
      if first < t { FarApart(u.cal, c, gap, first, t); }
    }
    TickClaimsAll(u, c, base, reading);
  }

  lemma {:induction false} FarApart(cal: Schedules.Calendar, c: Cron, gap: nat, a: Time, b: Time)
    requires Spaced(cal, c, gap) && a < b && Schedules.Occurs(cal, c, a) && Schedules.Occurs(cal, c, b)
    ensures gap <= b - a
  {
  }

  lemma {:induction false} RegularPolling(u: Setup, c: Cron, base: Time, events: seq<Event>, gap: nat)
    requires Schedules.Lawful(u.cal, c) && Spaced(u.cal, c, gap) && gap <= u.cfg.missedGrace
    requires Regular(events, base, gap)
    ensures Polled(u, c, base, events) == Occurrences(u.cal, c, base, LastReading(events, base))
    ensures base <= LastReading(events, base)
  {
    hide TickClaims, Spaced, Schedules.Lawful;
    if events != [] {
      var n := |events| - 1;
      var last := LastReading(events[..n], base);
      RegularPolling(u, c, base, events[..n], gap);
      if events[n].ClaimDue? {
        RegularTickClaimsAll(u, c, last, events[n].reading, gap);
        if last <= events[n].reading { OccurrencesSplit(u.cal, c, base, last, events[n].reading); }
      }
    }
  }

  /**
   * Healthy polling: with ticks at most `gap` apart, no larger than the grace and than any distance between two
   * occurrences, every occurrence after the anchor and up to the last tick is claimed exactly once, in order.
   */
  lemma {:induction false} ExactlyOnce(u: Setup, y: System, events: seq<Event>, id: Id, c: Cron, base: Time, gap: nat)
    requires Possible(u, y, events) && Undisturbed(u, y, events, id) && Tracks(u, y, id, c, base)
    requires Schedules.Lawful(u.cal, c) && Endless(u.cal, c) && Spaced(u.cal, c, gap)
    requires gap <= u.cfg.missedGrace && Regular(events, base, gap)
    ensures Planned(After(u, y, events).claims, id)
            == Planned(y.claims, id) + Occurrences(u.cal, c, base, LastReading(events, base))
  {
    hide Schedules.Lawful, Endless, Spaced, Tracks, Undisturbed, Regular, Possible, After, Planned, Occurrences;
    ClaimsArePolled(u, y, events, id, c, base);
    RegularPolling(u, c, base, events, gap);
  }
}
