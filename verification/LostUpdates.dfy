/** Runs of the operator, from empty tables on, in which an update leaves a row behind the input stored for it. */
module LostUpdates {
  import opened Agreement
  import opened Dispatch
  import opened Lifecycle
  import opened Operator
  import opened Options
  import opened Records
  import opened TwoDispatchers
  import D = Dispatcher
  import Lines
  import Schedules
  import Secrets

  const NEVER := Cron("0 0 30 2 *", "UTC")

  /**
   * No interval is set. The library knows one zone, in which everything occurs at every full minute except on the 30th
   * of February, which it takes for an expression though there is none.
   */
  function NoIntervalSetup(): Setup {
    Setup(
      Settings(true, true, 8, 300, 60, 120, 0, 20),
      Schedules.Calendar(
        (c: Cron) => c.timezone == "UTC",
        (c: Cron, t: Time) => if c == NEVER || c.timezone != "UTC" then None else Some(NextMinute(t))))
  }

  function Request(cron: Cron, data: string): Schedules.ScheduleRequest {
    Schedules.ScheduleRequest(
      cron, true, Allow, RunRequest("default", Pipeline(data, None, None, false, "INFO"), None, None, None))
  }

  function Created(): Event {
    CreateSchedule(Request(MINUTELY, "old"), 7, ALL_WELL)
  }

  /** An update to an expression that never occurs. */
  function WithoutAnchor(): seq<Event> {
    [Created(), UpdateSchedule(7, Request(NEVER, "new"), ALL_WELL)]
  }

  /** An update whose commit fails. */
  function WithoutCommit(): seq<Event> {
    [Created(), UpdateSchedule(7, Request(MINUTELY, "new"), ALL_WELL.(committed := false))]
  }

  // ---------- the libraries

  lemma {:induction false} NoIntervalIsLawful()
    ensures LawfulCalendar(NoIntervalSetup().cal) && ZonesAgree(NoIntervalSetup().cal)
  {
    var cal := NoIntervalSetup().cal;
    forall c: Cron ensures Schedules.Lawful(cal, c) {
      forall t: Time
        ensures Schedules.Occurs(cal, c, t) <==> c != NEVER && c.timezone == "UTC" && t % 60 == 0
      {
        MinuteAt(t);
      }
    }
    forall c: Cron | cal.accepts(c) ensures Schedules.Unzoned(c) == c { }
  }

  lemma {:induction false} MinutesAgree()
    ensures ZonesAgree(MinuteSetup().cal)
  {
  }

  // ---------- the schedule is made

  function OldRow(): Schedule {
    Schedule(MINUTELY, true, Allow, "default", None, Pipeline("old", None, None, false, "INFO"), None, None,
             Some(60), None, None, None, None, 0)
  }

  /** The tables with the schedule in them. */
  function OldStore(): Store {
    Store(map[], map[7 := OldRow()], map[7 := Payload(OldRow().pipeline, None)], map["default" := "image"])
  }

  lemma {:induction false} MakesOne(u: Setup)
    requires u == MinuteSetup() || u == NoIntervalSetup()
    ensures var y, e := EmptySystem(), Created();
            && Possible(u, y, [e]) && After(u, y, [e]).store == OldStore() && After(u, y, [e]).clock == 0
  {
    hide Schedules.Create, D.ClaimDue, Firing;
    var y, e := EmptySystem(), Created();
    CreatesOne(u);
    assert [e][..0] == [];
    assert Possible(u, y, []) && After(u, y, []) == y;
    assert Step(u, y, e).store == OldStore();
  }

  lemma {:induction false} CreatesOne(u: Setup)
    requires u == MinuteSetup() || u == NoIntervalSetup()
    ensures var req := Request(MINUTELY, "old");
            Schedules.Create(EmptySystem().store, u.cfg, u.cal, req, 7, 0, ALL_WELL).store == OldStore()
  {
    hide Secrets.Merge, Lines.Strip, Schedules.Spread;
    MinutesAreSpread(60, Schedules.SAMPLES - 1);
    NothingKept();
    assert "old"[0] in "old" && !Lines.Blank("old");
    Lines.StripKeepsTight("", Lines.IsSpace);
  }

  // ---------- the update

  lemma {:induction false} ThenUpdated(u: Setup, e: Event)
    requires u == MinuteSetup() || u == NoIntervalSetup()
    requires e.UpdateSchedule?
    ensures var y, events := EmptySystem(), [Created(), e];
            && Possible(u, y, events[..1]) && Possible(u, y, events)
            && After(u, y, events[..1]).store == OldStore() && After(u, y, events[..1]).clock == 0
            && After(u, y, events).store == StoreAfter(u, After(u, y, events[..1]), e)
  {
    hide Step, StoreAfter;
    MakesOne(u);
    var events := [Created(), e];
    assert events[..1] == [Created()];
    assert Enabled(After(u, EmptySystem(), events[..1]), e);
    assert Possible(u, EmptySystem(), events);
    LastStep(u, EmptySystem(), events);
  }

  lemma {:induction false} NewText(cron: Cron)
    ensures Schedules.Resolved(OldStore(), 7, Request(cron, "new"))
            == Some(Pipeline("new", None, None, false, "INFO"))
  {
    hide Secrets.Merge;
    NothingKept();
  }

  /** With no interval an accepted expression without occurrences leaves the new input under the old row. */
  lemma {:induction false} LostAnchorExample()
    ensures var u, y, events := NoIntervalSetup(), EmptySystem(), WithoutAnchor();
            && Initial(y) && LawfulCalendar(u.cal) && ZonesAgree(u.cal) && UpdatesCommitted(events)
            && Possible(u, y, events) && Possible(u, y, events[..1])
            && SchedulesAgree(After(u, y, events[..1]).store) && !SchedulesAgree(After(u, y, events).store)
  {
    var u, y, events := NoIntervalSetup(), EmptySystem(), WithoutAnchor();
    NoIntervalIsLawful();
    hide LawfulCalendar, ZonesAgree, StoreAfter, Possible, After, Secrets.Merge;
    ThenUpdated(u, events[1]);
    NewText(NEVER);
    UpdateAgrees(u, After(u, y, events[..1]), events[1]);
  }

  /** At the default settings an update whose commit fails does the same. */
  lemma {:induction false} LostCommitExample()
    ensures var u, y, events := MinuteSetup(), EmptySystem(), WithoutCommit();
            && Initial(y) && LawfulCalendar(u.cal) && ZonesAgree(u.cal) && u.cfg.minInterval == 60
            && Possible(u, y, events) && Possible(u, y, events[..1])
            && SchedulesAgree(After(u, y, events[..1]).store) && !SchedulesAgree(After(u, y, events).store)
  {
    var u, y, events := MinuteSetup(), EmptySystem(), WithoutCommit();
    MinutesAreLawful();
    MinutesAgree();
    hide LawfulCalendar, ZonesAgree, StoreAfter, Possible, After, Secrets.Merge, Schedules.Spread;
    ThenUpdated(u, events[1]);
    NewText(MINUTELY);
    MinutesAreSpread(60, Schedules.SAMPLES - 1);
    UpdateAgrees(u, After(u, y, events[..1]), events[1]);
  }
}
