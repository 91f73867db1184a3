/** A run of the operator in which two dispatchers claim one `skip` schedule before either has fired it. */
module TwoDispatchers {
  import opened Capacity
  import opened Dispatch
  import opened Effects
  import opened Lifecycle
  import opened Operator
  import opened Options
  import opened Records
  import opened SkipPolicy
  import D = Dispatcher
  import Lines
  import Polling
  import Schedules
  import Secrets

  /** Storage, the cluster and the database answer. */
  const ALL_WELL := World(true, true, true, true)

  const MINUTELY := Cron("* * * * *", "UTC")

  function NextMinute(t: Time): Time {
    (t / 60 + 1) * 60
  }

  /** The default settings, and a library for which everything occurs at every full minute. */
  function MinuteSetup(): Setup {
    Setup(
      Settings(true, true, 8, 300, 60, 120, 60, 20),
      Schedules.Calendar((c: Cron) => true, (c: Cron, t: Time) => Some(NextMinute(t))))
  }

  function EmptySystem(): System {
    System(Store(map[], map[], map[], map["default" := "image"]), 0, [], {}, [], {}, {}, None, map[])
  }

  function Definition(): Schedules.ScheduleRequest {
    Schedules.ScheduleRequest(
      MINUTELY, true, Skip,
      RunRequest("default", Pipeline("deploy", None, None, false, "INFO"), None, None, None))
  }

  /** The schedule is made; it is claimed when due, and claimed again a minute later with nothing fired in between. */
  function Overlapping(): seq<Event> {
    [CreateSchedule(Definition(), 7, ALL_WELL), Wait(60), ClaimDue(60, {}), Wait(60), ClaimDue(120, {})]
  }

  lemma {:induction false} MinutesAreLawful()
    ensures LawfulCalendar(MinuteSetup().cal)
  {
    var cal := MinuteSetup().cal;
    forall c: Cron ensures Schedules.Lawful(cal, c) {
      forall t: Time ensures Schedules.Occurs(cal, c, t) <==> t % 60 == 0 { MinuteAt(t); }
    }
  }

  lemma {:induction false} MinuteAt(t: Time)
    ensures NextMinute(t - 1) == t <==> t % 60 == 0
  {
  }

  lemma {:induction false} MinutesAreSpread(previous: Time, count: nat)
    requires previous % 60 == 0
    ensures Schedules.Spread(MinuteSetup().cal, MINUTELY, previous, count, 60)
    decreases count
  {
    if count > 0 { MinutesAreSpread(previous + 60, count - 1); }
  }

  /** One enabled `skip` schedule with its anchor, nothing running, and so many claims of it neither fired nor lost. */
  predicate Armed(y: System, next: Time, pending: nat) {
    && Sound(y) && y.store.runs == map[] && y.store.schedules.Keys == {7} && |Pending(y, 7)| == pending
    && var row := y.store.schedules[7];
       row.enabled && row.overlap == Skip && row.cron == MINUTELY && row.nextFireAt == Some(next)
  }

  lemma {:induction false} CreatedIsArmed()
    ensures Enabled(EmptySystem(), CreateSchedule(Definition(), 7, ALL_WELL))
    ensures var z := Step(MinuteSetup(), EmptySystem(), CreateSchedule(Definition(), 7, ALL_WELL));
            Armed(z, 60, 0) && z.clock == 0
  {
    hide Schedules.Create, Definition, MinuteSetup, Sound, D.ClaimDue, Firing;
    var u, y, e := MinuteSetup(), EmptySystem(), CreateSchedule(Definition(), 7, ALL_WELL);
    CreatedRow();
    EmptyIsSound();
    StepSound(u, y, e);
    var z := Step(u, y, e);
    assert z.inFlight == {} && z.store == Schedules.Create(y.store, u.cfg, u.cal, Definition(), 7, 0, ALL_WELL).store;
    assert Pending(z, 7) == {};
  }

  lemma {:induction false} EmptyIsSound()
    ensures Sound(EmptySystem())
  {
  }

  lemma {:induction false} CreatedRow()
    ensures var r := Schedules.Create(
              EmptySystem().store, MinuteSetup().cfg, MinuteSetup().cal, Definition(), 7, 0, ALL_WELL);
            && r.store.runs == map[] && r.store.schedules.Keys == {7}
            && var row := r.store.schedules[7];
               row.enabled && row.overlap == Skip && row.cron == MINUTELY && row.nextFireAt == Some(60)
  {
    hide Secrets.Merge, Secrets.Mask, Lines.Strip, Schedules.Spread;
    MinutesAreSpread(60, Schedules.SAMPLES - 1);
    NothingKept();
    assert "deploy"[0] in "deploy" && !Lines.Blank("deploy");
  }

  lemma {:induction false} NothingKept()
    ensures Secrets.Merge(None, None) == Secrets.Merged(None)
  {
  }

  lemma {:induction false} WaitKeepsArmed(y: System, next: Time, pending: nat, d: nat)
    requires Armed(y, next, pending)
    ensures Enabled(y, Wait(d))
    ensures var z := Step(MinuteSetup(), y, Wait(d)); Armed(z, next, pending) && z.clock == y.clock + d
  {
    var z := Step(MinuteSetup(), y, Wait(d));
    assert Pending(z, 7) == Pending(y, 7);
  }

  lemma {:induction false} DueOnce(y: System, next: Time)
    requires y.store.schedules.Keys == {7}
    ensures Polling.Fits(MinuteSetup(), y, ClaimDue(next, {}), 7)
  {
    SmallerSet(D.Due(y.store.schedules, next, {}), {7});
  }

  /** The row is due, is claimed, and gets the next minute as its anchor. */
  lemma {:induction false} ClaimedRow(y: System, next: Time)
    requires y.store.runs == map[] && 7 in y.store.schedules && next % 60 == 0
    requires var row := y.store.schedules[7]; row.enabled && row.overlap == Skip && row.nextFireAt == Some(next)
    ensures var u, row := MinuteSetup(), y.store.schedules[7];
            && D.IsDue(row, next) && !D.IsBusy(y.store.runs, 7)
            && D.Decide(row, false, u.cal, u.cfg, next) == D.Claimed
            && D.ClaimRow(row, false, u.cal, u.cfg, next) == row.(nextFireAt := Some(next + 60))
  {
  }

  lemma {:induction false} KeysKept(u: Setup, y: System, e: Event)
    requires Enabled(y, e) && e.ClaimDue?
    ensures var z := Step(u, y, e); z.store.schedules.Keys == y.store.schedules.Keys && z.clock == y.clock
  {
    hide D.ClaimRow, D.Batch, D.IsBusy, D.ToFire, NewClaims, Positions;
  }

  lemma {:induction false} TickClaims(y: System, next: Time, pending: nat)
    requires Armed(y, next, pending) && y.clock == next && next % 60 == 0
    ensures Enabled(y, ClaimDue(next, {}))
    ensures var z := Step(MinuteSetup(), y, ClaimDue(next, {})); Armed(z, next + 60, pending + 1) && z.clock == next
  {
    hide StoreAfter, Step, Claiming, D.IsBusy, D.Decide, D.IsDue, D.ClaimRow, Pending, Added, Polling.Fits, MinuteSetup;
    var u, e := MinuteSetup(), ClaimDue(next, {});
    DueOnce(y, next);
    Polling.DueIsBatched(u, y, e, 7);
    ClaimedRow(y, next);
    LogOfStep(u, y, e);
    RunsKept(u, y, e);
    SchedulesOfStep(u, y, e);
    StepSound(u, y, e);
    PendingAtTick(u, y, e, 7);
    KeysKept(u, y, e);
    assert Step(u, y, e).store.schedules[7] == ScheduleAfter(u, y, e, 7);
    BatchedIsClaiming(u, y, e, 7);
  }

  lemma {:induction false} BatchedIsClaiming(u: Setup, y: System, e: Event, id: Id)
    requires Enabled(y, e) && e.ClaimDue? && Claiming(u, y, e, id) && id in y.store.schedules
    ensures ScheduleAfter(u, y, e, id)
            == D.ClaimRow(y.store.schedules[id], D.IsBusy(y.store.runs, id), u.cal, u.cfg, e.reading)
  {
    hide D.Batch, D.ClaimRow, D.IsBusy;
  }

  // ---------- the whole run

  lemma {:induction false} OneFurther(u: Setup, y: System, events: seq<Event>, e: Event)
    requires Possible(u, y, events) && Enabled(After(u, y, events), e)
    requires AlwaysKept(u, y, events, 7) && PolicyKept(After(u, y, events), e, 7)
    ensures Possible(u, y, events + [e]) && After(u, y, events + [e]) == Step(u, After(u, y, events), e)
    ensures AlwaysKept(u, y, events + [e], 7)
  {
    hide Enabled, Step, PolicyKept;
    assert (events + [e])[..|events|] == events;
  }

  lemma {:induction false} NothingYet(u: Setup, y: System)
    ensures Possible(u, y, []) && After(u, y, []) == y && AlwaysKept(u, y, [], 7)
  {
  }

  /**
   * From empty tables, at the default settings and with a lawful library, two ticks with nothing fired in between end
   * with two claims of a `skip` schedule, though the policy is never touched.
   */
  lemma {:induction false} TwoDispatchersOverlap()
    ensures var u, y, events := MinuteSetup(), EmptySystem(), Overlapping();
            && Initial(y) && LawfulCalendar(u.cal) && Possible(u, y, events)
            && AlwaysKept(u, y, events, 7) && Skips(After(u, y, events), 7) && Load(After(u, y, events), 7) == 2
  {
    hide Step, Enabled, StoreAfter, MinuteSetup, LawfulCalendar, Armed, After, Possible, AlwaysKept;
    var u, y, e := MinuteSetup(), EmptySystem(), Overlapping();
    MinutesAreLawful();
    ClaimedOnce();
    var claimed := e[..3];
    WaitKeepsArmed(After(u, y, claimed), 120, 1, 60);
    OneFurther(u, y, claimed, e[3]);
    var dueAgain := claimed + [e[3]];
    TickClaims(After(u, y, dueAgain), 120, 1);
    OneFurther(u, y, dueAgain, e[4]);
    assert dueAgain + [e[4]] == e;
    NothingUnfinished(After(u, y, e));
  }

  lemma {:induction false} ClaimedOnce()
    ensures var u, y, events := MinuteSetup(), EmptySystem(), Overlapping()[..3];
            && Possible(u, y, events) && AlwaysKept(u, y, events, 7)
            && var z := After(u, y, events);
               Armed(z, 120, 1) && z.clock == 60
  {
    hide Step, Enabled, StoreAfter, MinuteSetup, Armed, After, Possible, AlwaysKept;
    var u, y, e := MinuteSetup(), EmptySystem(), Overlapping();
    CreatedIsArmed();
    NothingYet(u, y);
    OneFurther(u, y, [], e[0]);
    var created := [] + [e[0]];
    WaitKeepsArmed(After(u, y, created), 60, 0, 60);
    OneFurther(u, y, created, e[1]);
    var due := created + [e[1]];
    TickClaims(After(u, y, due), 60, 0);
    OneFurther(u, y, due, e[2]);
    assert due + [e[2]] == e[..3];
  }

  lemma {:induction false} NothingUnfinished(y: System)
    requires Armed(y, 180, 2)
    ensures Skips(y, 7) && Load(y, 7) == 2
  {
    hide Pending;
    assert Unfinished(y.store.runs, 7) == {};
  }
}
