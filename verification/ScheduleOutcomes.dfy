/** What edits make of a schedule: which are taken, what the row then shows, and when it is due. */
module ScheduleOutcomes {
  import opened MergeLaws
  import opened Operator
  import opened Options
  import opened Outcomes
  import opened Records
  import Lines
  import Schedules
  import Secrets

  // ---------- which expressions are taken

  /** Some occurrences one after the other, the first one after an instant. */
  predicate Occurrences(cal: Schedules.Calendar, c: Cron, after: Time, times: seq<Time>) {
    && (times != [] ==> cal.next(c, after) == Some(times[0]))
    && forall i | 0 < i < |times| :: cal.next(c, times[i - 1]) == Some(times[i])
  }

  predicate FarApart(times: seq<Time>, interval: int) {
    forall i | 0 < i < |times| :: times[i] - times[i - 1] >= interval
  }

  lemma {:induction false} SpreadIsFarApart(
    cal: Schedules.Calendar, c: Cron, previous: Time, count: nat, interval: int)
    returns (times: seq<Time>)
    ensures Schedules.Spread(cal, c, previous, count, interval) ==>
            |times| == count && Occurrences(cal, c, previous, times) && FarApart([previous] + times, interval)
    decreases count
  {
    times := [];
    if count > 0 && cal.next(c, previous).Some? {
      var t := cal.next(c, previous).value;
      var rest := SpreadIsFarApart(cal, c, t, count - 1, interval);
      times := [t] + rest;
      if Schedules.Spread(cal, c, previous, count, interval) { Longer(cal, c, previous, t, rest, interval); }
    }
  }

  lemma {:induction false} Longer(
    cal: Schedules.Calendar, c: Cron, previous: Time, t: Time, rest: seq<Time>, interval: int)
    requires cal.next(c, previous) == Some(t) && Occurrences(cal, c, t, rest) && FarApart([t] + rest, interval)
    requires interval <= t - previous
    ensures Occurrences(cal, c, previous, [t] + rest) && FarApart([previous] + ([t] + rest), interval)
  {
    var times, all := [t] + rest, [previous] + ([t] + rest);
    forall i | 0 < i < |times| ensures cal.next(c, times[i - 1]) == Some(times[i]) {
      if i > 1 { assert times[i - 1] == rest[i - 2] && times[i] == rest[i - 1]; }
    }
    forall i | 0 < i < |all| ensures all[i] - all[i - 1] >= interval {
      if i > 1 { assert all[i] == times[i - 1] && all[i - 1] == times[i - 2]; }
    }
  }

  lemma {:induction false} FarApartIsSpread(
    cal: Schedules.Calendar, c: Cron, previous: Time, times: seq<Time>, interval: int)
    requires Occurrences(cal, c, previous, times) && FarApart([previous] + times, interval)
    ensures Schedules.Spread(cal, c, previous, |times|, interval)
    decreases |times|
  {
    if times != [] {
      var all, rest := [previous] + times, times[1..];
      assert all[1] - all[0] >= interval;
      forall i | 0 < i < |rest| ensures cal.next(c, rest[i - 1]) == Some(rest[i]) {
        assert rest[i - 1] == times[i] && rest[i] == times[i + 1];
      }
      forall i | 0 < i < |[times[0]] + rest|
        ensures ([times[0]] + rest)[i] - ([times[0]] + rest)[i - 1] >= interval
      {
        assert all[i + 1] - all[i] >= interval;
      }
      FarApartIsSpread(cal, c, times[0], rest, interval);
    }
  }

  /**
   * An expression is taken exactly if the library takes it and, where an interval is set, eight of its occurrences from
   * now on, read without its zone, are there and at least so far apart.
   */
  lemma {:induction false} AcceptedExactlyIf(cal: Schedules.Calendar, cfg: Settings, c: Cron, now: Time)
    ensures Schedules.Accepted(cal, cfg, c, now) <==>
            && cal.accepts(c)
            && (cfg.minInterval > 0 ==>
                  exists times: seq<Time> ::
                    && |times| == 8 && Occurrences(cal, Cron(c.expression, "UTC"), now, times)
                    && FarApart(times, cfg.minInterval))
  {
    hide Schedules.Spread;
    var utc := Cron(c.expression, "UTC");
    if cal.accepts(c) && cfg.minInterval > 0 {
      if Schedules.Accepted(cal, cfg, c, now) {
        var first := cal.next(utc, now).value;
        var rest := SpreadIsFarApart(cal, utc, first, 7, cfg.minInterval);
        FirstThen(cal, utc, now, first, rest);
      }
      if times: seq<Time> :| |times| == 8 && Occurrences(cal, utc, now, times) && FarApart(times, cfg.minInterval) {
        FirstOf(cal, utc, now, times, cfg.minInterval);
        FarApartIsSpread(cal, utc, times[0], times[1..], cfg.minInterval);
      }
    }
  }

  lemma {:induction false} FirstThen(cal: Schedules.Calendar, c: Cron, now: Time, first: Time, rest: seq<Time>)
    requires cal.next(c, now) == Some(first) && Occurrences(cal, c, first, rest)
    ensures Occurrences(cal, c, now, [first] + rest)
  {
    var times := [first] + rest;
    forall i | 0 < i < |times| ensures cal.next(c, times[i - 1]) == Some(times[i]) {
      if i > 1 { assert times[i - 1] == rest[i - 2] && times[i] == rest[i - 1]; }
    }
  }

  lemma {:induction false} FirstOf(cal: Schedules.Calendar, c: Cron, now: Time, times: seq<Time>, interval: int)
    requires times != [] && Occurrences(cal, c, now, times) && FarApart(times, interval)
    ensures cal.next(c, now) == Some(times[0]) && Occurrences(cal, c, times[0], times[1..])
    ensures FarApart([times[0]] + times[1..], interval)
  {
    var rest := times[1..];
    forall i | 0 < i < |rest| ensures cal.next(c, rest[i - 1]) == Some(rest[i]) {
      assert rest[i - 1] == times[i] && rest[i] == times[i + 1];
    }
    if rest != [] { assert cal.next(c, times[0]) == Some(times[1]); }
    assert [times[0]] + rest == times;
  }

  // ---------- what a row shows

  /** The row shows what was asked for, with its secrets masked and the image stripped. */
  predicate Shows(row: Schedule, req: Schedules.ScheduleRequest, secure: Option<string>) {
    && row.cron == req.cron && row.overlap == req.overlap && row.enabled == req.enabled
    && row.profileId == req.run.profileId && row.envVars == req.run.envVars
    && row.pipeline == Masked(req.run.pipeline.(secure := secure))
    && if Lines.Blank(req.run.pdeImage.GetOr("")) then row.pdeImage.None?
       else req.run.pdeImage.Some? && row.pdeImage == Some(Lines.Strip(req.run.pdeImage.value, Lines.IsSpace))
  }

  lemma {:induction false} RequestShows(
    row: Schedule, req: Schedules.ScheduleRequest, pipeline: Pipeline, next: Option<Time>, now: Time)
    requires pipeline == req.run.pipeline.(secure := pipeline.secure)
    ensures Shows(Schedules.NewSchedule(req, pipeline, next, now), req, pipeline.secure)
    ensures Shows(Schedules.UpdatedRow(row, req, pipeline, next, now), req, pipeline.secure)
  {
    hide Lines.Strip, Lines.Blank, Masked;
    BlankStrips(req.run.pdeImage.GetOr(""));
    Lines.NothingIsBlank();
  }

  // ---------- creating

  /** No line of the secrets stands for a stored value: there is none yet. */
  predicate KeepsNone(secure: Option<string>) {
    forall line | line in Held(secure) :: !KeepsStored(line)
  }

  lemma {:induction false} MergesWithNothing(secure: Option<string>)
    ensures Secrets.Merge(secure, None).Merged? <==> KeepsNone(secure)
  {
    hide Secrets.Merge, KeepsStored, Sets, Held;
    var out := MergeMeans(secure, None);
    Lines.NoLines();
  }

  /** What has to be right about a new schedule before anything is stored. */
  predicate CanBeMade(s: Store, cfg: Settings, cal: Schedules.Calendar, req: Schedules.ScheduleRequest, now: Time) {
    && Schedules.Accepted(cal, cfg, req.cron, now) && !Lines.Blank(req.run.pipeline.data)
    && req.run.profileId in s.profiles && KeepsNone(req.run.pipeline.secure)
  }

  /**
   * A schedule is made exactly if it can be, its input is stored, it has a next occurrence where it is enabled, and the
   * commit goes through; it then shows what was asked for and is due at that occurrence. The input stays behind where
   * one of the last two fails.
   */
  lemma {:induction false} CreateScheduleOutcome(u: Setup, y: System, e: Event) returns (secure: Option<string>)
    requires Enabled(y, e) && e.CreateSchedule?
    ensures var s, t, req := y.store, StoreAfter(u, y, e), e.definition;
            var next := if req.enabled then u.cal.next(req.cron, y.clock) else None;
            var stores := CanBeMade(s, u.cfg, u.cal, req, y.clock) && e.world.storageOk;
            && t.runs == s.runs && t.profiles == s.profiles
            && (stores ==> Secrets.Merge(req.run.pipeline.secure, None) == Secrets.Merged(secure))
            && t.inputs == (if stores then s.inputs[e.id := Payload(req.run.pipeline.(secure := secure), None)]
                            else s.inputs)
            && if stores && (req.enabled ==> next.Some?) && e.world.committed then
                 && e.id in t.schedules && t.schedules == s.schedules[e.id := t.schedules[e.id]]
                 && var row := t.schedules[e.id];
                    && Shows(row, req, secure) && row.nextFireAt == next && row.templateId == req.run.templateId
                    && row.lastFireAt.None? && row.lastFireStatus.None? && row.lastRunId.None?
               else t.schedules == s.schedules
  {
    hide Schedules.Accepted, Secrets.Merge, Masked, KeepsNone, Shows, Lines.Blank, Lines.Strip;
    var req := e.definition;
    MergesWithNothing(req.run.pipeline.secure);
    secure := None;
    if Secrets.Merge(req.run.pipeline.secure, None).Merged? {
      secure := Secrets.Merge(req.run.pipeline.secure, None).text;
      var next := if req.enabled then u.cal.next(req.cron, y.clock) else None;
      var pipeline := req.run.pipeline.(secure := secure);
      RequestShows(Schedules.NewSchedule(req, pipeline, next, y.clock), req, pipeline, next, y.clock);
    }
  }

  // ---------- updating and switching

  /** Every submitted line that keeps a stored value has its key on a stored line. */
  predicate KeepsOnlyStored(submitted: Option<string>, stored: Option<string>) {
    AllKnown(Held(submitted), Lines.SplitLines(stored.GetOr("")))
  }

  /** What has to be right about an update before anything is stored: above all, every kept secret is one there was. */
  predicate CanBeUpdated(
    s: Store, cfg: Settings, cal: Schedules.Calendar, id: Id, req: Schedules.ScheduleRequest, now: Time, readable: bool)
  {
    && id in s.schedules && Schedules.Accepted(cal, cfg, req.cron, now) && req.run.profileId in s.profiles
    && id in s.inputs && readable
    && KeepsOnlyStored(req.run.pipeline.secure, s.inputs[id].pipeline.secure)
  }

  /** A row keeps its anchor exactly if it was and stays enabled, with the expression and zone it had and an anchor. */
  predicate AnchorStays(row: Schedule, req: Schedules.ScheduleRequest) {
    req.enabled && row.enabled && row.cron == req.cron && row.nextFireAt.Some?
  }

  /** What an update that goes through makes of a row. */
  predicate Updated(
    before: Schedule, after: Schedule, req: Schedules.ScheduleRequest, secure: Option<string>, next: Option<Time>)
  {
    && Shows(after, req, secure)
    && after.nextFireAt == (if !req.enabled then None else if AnchorStays(before, req) then before.nextFireAt else next)
    && after.templateId == before.templateId && after.lastFireAt == before.lastFireAt
    && after.lastFireStatus == before.lastFireStatus && after.lastRunId == before.lastRunId
  }

  /**
   * An update stores its input exactly if it can be made and storage answers. The row then shows what was asked for,
   * unless it needs an occurrence and there is none, or the commit fails; a row that stays enabled with its expression
   * keeps the instant it is due at, another one is due at the next occurrence.
   */
  lemma {:induction false} UpdateOutcome(u: Setup, y: System, e: Event) returns (secure: Option<string>)
    requires Enabled(y, e) && e.UpdateSchedule?
    ensures var s, t, req := y.store, StoreAfter(u, y, e), e.definition;
            var stores := CanBeUpdated(s, u.cfg, u.cal, e.id, req, y.clock, e.world.readable) && e.world.storageOk;
            var next := u.cal.next(req.cron, y.clock);
            && t.runs == s.runs && t.profiles == s.profiles
            && (stores ==>
                  Secrets.Merge(req.run.pipeline.secure, s.inputs[e.id].pipeline.secure) == Secrets.Merged(secure))
            && t.inputs == (if stores then s.inputs[e.id := Payload(req.run.pipeline.(secure := secure), None)]
                            else s.inputs)
            && if stores && e.world.committed
                  && (req.enabled && !AnchorStays(s.schedules[e.id], req) ==> next.Some?) then
                 && e.id in t.schedules && t.schedules == s.schedules[e.id := t.schedules[e.id]]
                 && Updated(s.schedules[e.id], t.schedules[e.id], req, secure, next)
               else t.schedules == s.schedules
  {
    hide Schedules.Accepted, Secrets.Merge, Masked, Shows, AllKnown, Held, Lines.Blank, Lines.Strip, Lines.SplitLines;
    var s, req := y.store, e.definition;
    secure := None;
    if e.id in s.schedules && e.id in s.inputs {
      var out := MergeMeans(req.run.pipeline.secure, s.inputs[e.id].pipeline.secure);
      var merged := Secrets.Merge(req.run.pipeline.secure, s.inputs[e.id].pipeline.secure);
      if merged.Merged? {
        secure := merged.text;
        var pipeline := req.run.pipeline.(secure := secure);
        RequestShows(s.schedules[e.id], req, pipeline, u.cal.next(req.cron, y.clock), y.clock);
      }
    }
  }

  /** Switching a schedule on makes it due at its next occurrence, and is refused without one; off, it is never due. */
  lemma {:induction false} SwitchOutcome(u: Setup, y: System, e: Event)
    requires Enabled(y, e) && e.SetEnabled?
    ensures var s, t := y.store, StoreAfter(u, y, e);
            if e.id in s.schedules && s.schedules[e.id].enabled != e.enabled
               && (e.enabled ==> u.cal.next(s.schedules[e.id].cron, y.clock).Some?) then
              var row := s.schedules[e.id];
              t == s.(schedules := s.schedules[e.id := row.(
                enabled := e.enabled, updatedAt := y.clock,
                nextFireAt := if e.enabled then u.cal.next(row.cron, y.clock) else None)])
            else t == s
  {
  }

  // ---------- deleting

  /** A schedule that is deleted is gone with what was stored for it, which is gone alone where the commit fails. */
  lemma {:induction false} DeleteScheduleOutcome(u: Setup, y: System, e: Event)
    requires Enabled(y, e) && e.DeleteSchedule?
    ensures var s, t := y.store, StoreAfter(u, y, e);
            var cleans := e.id in s.schedules && e.ok;
            && t.runs == s.runs && t.profiles == s.profiles
            && t.inputs == (if cleans then s.inputs - {e.id} else s.inputs)
            && t.schedules == (if cleans && e.committed then s.schedules - {e.id} else s.schedules)
  {
  }

  /** Deleting all schedules takes every row, and what is stored for each unless that fails; runs keep theirs. */
  lemma {:induction false} DeleteAllOutcome(u: Setup, y: System, e: Event, id: Id)
    requires Enabled(y, e) && e.DeleteAllSchedules?
    ensures var s, t := y.store, StoreAfter(u, y, e);
            && t.runs == s.runs && t.profiles == s.profiles && id !in t.schedules
            && (id in t.inputs <==> id in s.inputs && (id !in s.schedules || id in e.kept))
            && (id in t.inputs ==> t.inputs[id] == s.inputs[id])
  {
  }
}
