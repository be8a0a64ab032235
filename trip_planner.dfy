/**
 * The multi-day trip planner: it plans one duty window per day until the
 * trip's driving is used up, the thirtieth window is planned, or the 70-hour
 * cycle is reached without permission to restart. After each window it
 * subtracts the driving done, moves the clock to the window's last activity
 * and adds every minute of the window (the 10-hour rest included) to the
 * cycle. Once the cycle reaches 70 hours it either inserts a day holding a
 * 34-hour restart and starts the cycle again, or stops with a warning.
 *
 * The fuel-station list is an input; the day's calendar date is replaced by
 * the minute the day's first activity starts at.
 */
module TripRules {
  import opened Activities
  import opened DutyWindow

  /** One entry of the plan's day list: a planned duty window, or an inserted 34-hour restart. */
  datatype Day =
    | WindowDay(date: int, activities: seq<Activity>, warnings: seq<string>, remainingCycleMinutes: int,
                driveConsumed: int, fuelInserted: nat)
    | RestartDay(date: int, activities: seq<Activity>, warnings: seq<string>, remainingCycleMinutes: int)

  datatype TripSummary = TripSummary(
    totalDriveRequested: int,
    totalDriveRemaining: int,
    daysPlanned: nat,
    fuelStopsExpected: nat,
    fuelStopsInserted: nat,
    warnings: seq<string>)

  datatype TripPlan = TripPlan(days: seq<Day>, summary: TripSummary)

  /** At most this many duty windows are planned. */
  const MaxDays: int := 30
  /** Safety bound on the number of loop rounds; the day bound is always reached first. */
  const TripGuard: int := 2000

  const RestartDayNote: string := "34-hour restart inserted to reset cycle."
  const RestartWarning: string := "34-hour restart inserted in plan (allow_restart=True)."
  const CycleWarning: string :=
    "Planned activities exceed 70-hour cycle limit. Set allow_restart=true to simulate a 34-hour restart."

  /**
   * The number of fuel stops the trip's distance calls for: the distance
   * divided by the fuel interval, rounded down, and never negative; zero when
   * the distance is unknown or zero or the interval is not positive.
   */
  function FuelStopsExpected(distance: Option<real>, fuelIntervalMiles: int): (n: nat)
    ensures distance.None? || distance.value == 0.0 || fuelIntervalMiles <= 0 ==> n == 0
    ensures distance.Some? && distance.value < 0.0 ==> n == 0
    ensures distance.Some? && distance.value > 0.0 && fuelIntervalMiles > 0 ==>
              n as real * fuelIntervalMiles as real <= distance.value < (n + 1) as real * fuelIntervalMiles as real
  {
    if distance.Some? && distance.value != 0.0 && fuelIntervalMiles > 0 then
      var q := distance.value / fuelIntervalMiles as real;
      var f := q.Floor;
      FloorScales(distance.value, fuelIntervalMiles as real, f);
      if f > 0 then f else 0
    else 0
  }

  /** Rounding `d / i` down to `f` brackets `d` between `f` and `f + 1` intervals. */
  lemma FloorScales(d: real, i: real, f: int)
    requires i > 0.0 && f == (d / i).Floor
    ensures f as real * i <= d < (f + 1) as real * i
    ensures d < 0.0 ==> f < 0
    ensures d >= 0.0 ==> f >= 0
  {
    var q := d / i;
    var g := f as real;
    assert g <= q < g + 1.0;
    assert q * i == d;
    var lo := g * i;
    var hi := (g + 1.0) * i;
    assert lo <= d by {
      assert (q - g) * i == d - lo;
      MulNonNeg(q - g, i);
    }
    var e := g + 1.0 - q;
    MulPos(e, i);
    assert e * i == hi - q * i;
    assert d < hi;
    assert (f + 1) as real == g + 1.0;
  }

  lemma MulNonNeg(a: real, b: real)
    requires a >= 0.0 && b > 0.0
    ensures a * b >= 0.0
  {
  }

  lemma MulPos(a: real, b: real)
    requires a > 0.0 && b > 0.0
    ensures a * b > 0.0
  {
  }

  // ------------------------------------------------------------ day totals

  /** Trip driving done by the planned windows. */
  function DriveDone(days: seq<Day>): (m: int)
  {
    if days == [] then 0
    else DriveDone(days[..|days| - 1]) + (if Last(days).WindowDay? then Last(days).driveConsumed else 0)
  }

  /** Fuel stops the planned windows report. */
  function FuelDone(days: seq<Day>): (n: nat)
  {
    if days == [] then 0
    else FuelDone(days[..|days| - 1]) + (if Last(days).WindowDay? then Last(days).fuelInserted else 0)
  }

  function WindowCount(days: seq<Day>): (n: nat)
  {
    if days == [] then 0 else WindowCount(days[..|days| - 1]) + (if Last(days).WindowDay? then 1 else 0)
  }

  function RestartCount(days: seq<Day>): (n: nat)
  {
    if days == [] then 0 else RestartCount(days[..|days| - 1]) + (if Last(days).RestartDay? then 1 else 0)
  }

  /**
   * The cycle minutes after the days, starting from `cycleUsed`: every window
   * adds the minutes of all its activities, and a restart sets it to zero.
   */
  function CycleAfter(days: seq<Day>, cycleUsed: int): (c: int)
  {
    if days == [] then cycleUsed
    else if Last(days).RestartDay? then 0
    else CycleAfter(days[..|days| - 1], cycleUsed) + TotalDuration(Last(days).activities)
  }

  /** All the activities of the trip, day after day. */
  function TripActivities(days: seq<Day>): (acts: seq<Activity>)
  {
    if days == [] then [] else TripActivities(days[..|days| - 1]) + Last(days).activities
  }

  function Repeat(s: string, n: nat): (r: seq<string>)
  {
    if n == 0 then [] else Repeat(s, n - 1) + [s]
  }

  /** What one more day adds to each total. */
  lemma AppendDay(days: seq<Day>, d: Day, cycleUsed: int)
    ensures DriveDone(days + [d]) == DriveDone(days) + (if d.WindowDay? then d.driveConsumed else 0)
    ensures FuelDone(days + [d]) == FuelDone(days) + (if d.WindowDay? then d.fuelInserted else 0)
    ensures WindowCount(days + [d]) == WindowCount(days) + (if d.WindowDay? then 1 else 0)
    ensures RestartCount(days + [d]) == RestartCount(days) + (if d.RestartDay? then 1 else 0)
    ensures CycleAfter(days + [d], cycleUsed) ==
              if d.RestartDay? then 0 else CycleAfter(days, cycleUsed) + TotalDuration(d.activities)
    ensures TripActivities(days + [d]) == TripActivities(days) + d.activities
  {
    assert (days + [d])[..|days|] == days;
  }

  // ------------------------------------------------------------ the day rules

  /** The inputs of the trip planner that stay fixed while it runs. */
  datatype TripInputs = TripInputs(start: int, totalDrive: int, cycleUsed: int, distance: Option<real>,
                                   fuelIntervalMiles: int, allowRestart: bool, pickupMinutes: int,
                                   fuelStopMinutes: int, stations: seq<Station>)

  /**
   * The loop stopped at the cycle limit: the last day is a window after
   * which the cycle reached 70 hours (and no restart followed it).
   */
  ghost predicate CycleStop(days: seq<Day>, cycleUsed: int)
  {
    days != [] && Last(days).WindowDay? && CycleAfter(days, cycleUsed) >= CycleLimitMinutes
  }

  /**
   * The day `day` planned after the days `before`. A window day is exactly
   * what the window planner returns when it starts where the previous day
   * ended, with the driving still left, the cycle used so far, the pickup
   * only in the first window, and no dropoff; it comes only while driving is
   * left and the cycle has not reached 70 hours. A restart day holds one
   * 34-hour off-duty rest, comes right after the window that reached 70 hours,
   * and only when restarts are allowed.
   */
  ghost predicate DayOk(before: seq<Day>, day: Day, t: TripInputs)
  {
    var left := t.totalDrive - DriveDone(before);
    var clock := EndTime(TripActivities(before), t.start);
    match day
    case WindowDay(date, acts, warnings, rc, consumed, fuel) =>
      && date == clock
      && left > 0
      && !CycleStop(before, t.cycleUsed)
      && PlannedWindow(WindowPlan(acts, warnings, rc, consumed, fuel), date, left, CycleAfter(before, t.cycleUsed),
                       FuelScheduleMinutes(t.distance, t.fuelIntervalMiles, left), t.fuelStopMinutes, t.stations,
                       if before == [] then t.pickupMinutes else 0, 0)
    case RestartDay(_, _, _, _) => RestartOk(before, day, t)
  }

  /** The rules of a restart day, planned after the days `before`. */
  ghost predicate RestartOk(before: seq<Day>, day: Day, t: TripInputs)
    requires day.RestartDay?
  {
    && t.allowRestart
    && CycleStop(before, t.cycleUsed)
    && day.date == EndTime(TripActivities(before), t.start)
    && day.activities == [Activity(day.date, day.date + RestartMinutes, OffDuty, Restart34, None)]
    && day.warnings == [RestartDayNote]
    && day.remainingCycleMinutes == CycleLimitMinutes
  }

  ghost predicate DayAt(days: seq<Day>, k: int, t: TripInputs)
  {
    0 <= k < |days| ==> DayOk(days[..k], days[k], t)
  }

  /** Every day of the list is planned by the rules. */
  ghost predicate TripDays(days: seq<Day>, t: TripInputs)
  {
    forall k :: 0 <= k < |days| ==> DayAt(days, k, t)
  }

  lemma TripDaysAppend(days: seq<Day>, d: Day, t: TripInputs)
    requires TripDays(days, t) && DayOk(days, d, t)
    ensures TripDays(days + [d], t)
  {
    var e := days + [d];
    forall k | 0 <= k < |e| ensures DayAt(e, k, t) {
      if k < |days| {
        assert DayAt(days, k, t);
        assert e[..k] == days[..k] && e[k] == days[k];
      } else {
        assert e[..k] == days && e[k] == d;
      }
    }
  }

  lemma TripDaysPrefix(days: seq<Day>, n: int, t: TripInputs)
    requires TripDays(days, t) && 0 <= n <= |days|
    ensures TripDays(days[..n], t)
  {
    var p := days[..n];
    forall k | 0 <= k < |p| ensures DayAt(p, k, t) {
      assert DayAt(days, k, t);
      assert p[..k] == days[..k] && p[k] == days[k];
    }
  }

  /**
   * What a window day of a planned trip holds: it is not empty, it has no
   * dropoff (the trip passes a dropoff time of zero to every window), only
   * the first window may start with the pickup, its driving is its drive
   * chunks and at most 8 hours, every window after the first drives, its
   * fuel count is its fuel stops, and the minutes it adds to the trip's
   * cycle are the minutes the window's own estimate counts plus the 10-hour
   * rest when the window ends with one.
   */
  lemma WindowDayFacts(before: seq<Day>, d: Day, t: TripInputs)
    requires DayOk(before, d, t) && d.WindowDay?
    ensures d.activities != []
    ensures forall i :: 0 <= i < |d.activities| ==> d.activities[i].kind != Dropoff
    ensures forall i :: 0 <= i < |d.activities| && d.activities[i].kind == Pickup ==>
              i == 0 && before == [] && t.pickupMinutes > 0
    ensures SumDrive(d.activities) == d.driveConsumed <= BreakAfterMinutes
    ensures before != [] ==> d.driveConsumed > 0
    ensures FuelCount(d.activities) == d.fuelInserted
    ensures TotalDuration(d.activities) ==
              CountedOnDuty(d.activities) + (if Last(d.activities).kind == WindowEnd then RestMinutes else 0)
  {
    var acts := d.activities;
    var pickup := if before == [] then t.pickupMinutes else 0;
    forall i | 0 <= i < |acts| ensures acts[i].kind != Dropoff {
      if i == |acts| - 1 {
        assert acts[i] == Last(acts);
      }
    }
    forall i | 0 <= i < |acts| && acts[i].kind == Pickup ensures i == 0 && before == [] && t.pickupMinutes > 0 {
      assert PickupAt(acts, i, pickup);
    }
    RestOnlyLast(acts);
  }

  /** A restart day holds nothing but the 34-hour rest. */
  lemma RestartDayFacts(before: seq<Day>, d: Day, t: TripInputs)
    requires d.RestartDay? && RestartOk(before, d, t)
    ensures SumDrive(d.activities) == 0 && FuelCount(d.activities) == 0
    ensures forall i :: 0 <= i < |d.activities| ==> d.activities[i].kind == Restart34
  {
    AppendOne([], d.activities[0]);
    assert [] + [d.activities[0]] == d.activities;
  }

  /**
   * The trip's driving done is the length of all its drive chunks, its fuel
   * count is the number of its fuel stops, and, until a restart, its cycle is
   * the cycle used before plus every minute of its activities.
   */
  lemma {:induction false} TripTotals(days: seq<Day>, t: TripInputs)
    requires TripDays(days, t)
    ensures DriveDone(days) == SumDrive(TripActivities(days))
    ensures FuelDone(days) == FuelCount(TripActivities(days))
    ensures RestartCount(days) == 0 ==> CycleAfter(days, t.cycleUsed) == t.cycleUsed + TotalDuration(TripActivities(days))
    decreases |days|
  {
    if days != [] {
      var init := days[..|days| - 1];
      var d := Last(days);
      TripDaysPrefix(days, |days| - 1, t);
      TripTotals(init, t);
      assert DayAt(days, |days| - 1, t);
      AppendAll(TripActivities(init), d.activities);
      if d.WindowDay? {
        WindowDayFacts(init, d, t);
      } else {
        RestartDayFacts(init, d, t);
      }
    }
  }

  /** No day of a planned trip holds a dropoff. */
  lemma TripNoDropoff(days: seq<Day>, t: TripInputs)
    requires TripDays(days, t)
    ensures forall k, i :: 0 <= k < |days| && 0 <= i < |days[k].activities| ==> days[k].activities[i].kind != Dropoff
  {
    forall k, i | 0 <= k < |days| && 0 <= i < |days[k].activities| ensures days[k].activities[i].kind != Dropoff {
      assert DayAt(days, k, t);
      if days[k].WindowDay? {
        WindowDayFacts(days[..k], days[k], t);
      } else {
        RestartDayFacts(days[..k], days[k], t);
      }
    }
  }

  /** Only the first activity of the first day can be the pickup, and only when a pickup time is set. */
  lemma TripPickupFirst(days: seq<Day>, t: TripInputs)
    requires TripDays(days, t)
    ensures forall k, i :: 0 <= k < |days| && 0 <= i < |days[k].activities| && days[k].activities[i].kind == Pickup ==>
              k == 0 && i == 0 && t.pickupMinutes > 0
  {
    forall k, i | 0 <= k < |days| && 0 <= i < |days[k].activities| && days[k].activities[i].kind == Pickup
      ensures k == 0 && i == 0 && t.pickupMinutes > 0
    {
      assert DayAt(days, k, t);
      if days[k].WindowDay? {
        WindowDayFacts(days[..k], days[k], t);
      }
    }
  }

  /** Every window drives at most 8 hours, and every window after the first drives. */
  lemma TripWindowsDrive(days: seq<Day>, t: TripInputs)
    requires TripDays(days, t)
    ensures forall k :: 0 <= k < |days| && days[k].WindowDay? ==>
              days[k].driveConsumed <= BreakAfterMinutes && (k > 0 ==> days[k].driveConsumed > 0)
  {
    forall k | 0 <= k < |days| && days[k].WindowDay?
      ensures days[k].driveConsumed <= BreakAfterMinutes && (k > 0 ==> days[k].driveConsumed > 0)
    {
      assert DayAt(days, k, t);
      WindowDayFacts(days[..k], days[k], t);
    }
  }

  /**
   * Until a restart, the trip's cycle is the cycle used before plus the clock
   * time elapsed since the trip started: the 10-hour rests count against the
   * 70-hour cycle, unlike in each window's own estimate.
   */
  lemma CycleIsElapsed(days: seq<Day>, t: TripInputs)
    requires TripDays(days, t) && RestartCount(days) == 0
    requires Chain(TripActivities(days), t.start, EndTime(TripActivities(days), t.start))
    ensures CycleAfter(days, t.cycleUsed) == t.cycleUsed + EndTime(TripActivities(days), t.start) - t.start
  {
    TripTotals(days, t);
    TotalDurationTelescopes(TripActivities(days), t.start, EndTime(TripActivities(days), t.start));
  }

  // ------------------------------------------------------------ the loop

  /**
   * The trip loop's state: the days so far, the clock, the driving left, the
   * cycle used, the windows counted, the fuel stops reported, the warnings,
   * and whether the loop stopped at the cycle limit.
   */
  datatype TripState = TripState(days: seq<Day>, current: int, remaining: int, cycle: int, dayIndex: int,
                                 fuelTotal: nat, warnings: seq<string>, stopped: bool)

  /** The trackers agree with the day list. */
  ghost predicate TripTrackers(s: TripState, t: TripInputs)
  {
    && TripDays(s.days, t)
    && Chain(TripActivities(s.days), t.start, s.current)
    && s.remaining == t.totalDrive - DriveDone(s.days)
    && 0 <= DriveDone(s.days)
    && (s.days != [] ==> s.remaining >= 0)
    && s.fuelTotal == FuelDone(s.days)
    && s.cycle == CycleAfter(s.days, t.cycleUsed)
    && (!t.allowRestart ==> RestartCount(s.days) == 0)
  }

  /** The invariant of the trip loop, and what holds when it stops at the cycle limit. */
  ghost predicate TripInv(s: TripState, t: TripInputs)
  {
    match s
    case TripState(days, _, _, _, dayIndex, _, warnings, stopped) =>
      && TripTrackers(s, t)
      && WindowCount(days) == dayIndex + (if stopped then 1 else 0)
      && 0 <= dayIndex <= MaxDays
      && |days| <= 2 * WindowCount(days)
      && warnings == Repeat(RestartWarning, RestartCount(days)) + (if stopped then [CycleWarning] else [])
      && (stopped <==> CycleStop(days, t.cycleUsed))
      && (stopped ==> !t.allowRestart && dayIndex < MaxDays)
  }

  /** The state once a window is recorded, before the cycle check. */
  ghost predicate MidInv(m: TripState, t: TripInputs)
  {
    match m
    case TripState(days, _, _, _, dayIndex, _, warnings, stopped) =>
      && TripTrackers(m, t)
      && WindowCount(days) == dayIndex + 1
      && 0 <= dayIndex < MaxDays
      && |days| + 1 <= 2 * WindowCount(days)
      && days != [] && Last(days).WindowDay?
      && warnings == Repeat(RestartWarning, RestartCount(days))
      && !stopped
  }

  lemma TripEntry(s: TripState, t: TripInputs)
    requires s == TripState([], t.start, t.totalDrive, t.cycleUsed, 0, 0, [], false)
    ensures TripInv(s, t)
  {
  }

  /** What the trip loop uses of a window the window planner promised. */
  lemma WindowFacts(plan: WindowPlan, start: int, totalDrive: int, cycleUsed: int, threshold: Option<real>,
                    fuelStopMinutes: int, stations: seq<Station>, pickupMinutes: int)
    requires PlannedWindow(plan, start, totalDrive, cycleUsed, threshold, fuelStopMinutes, stations, pickupMinutes, 0)
    requires totalDrive > 0
    ensures plan.activities != [] && Chain(plan.activities, start, Last(plan.activities).end)
    ensures 0 <= plan.driveConsumed <= totalDrive
  {
  }

  /** The window planned from state `s` obeys the day rules after the days of `s`. */
  lemma WindowDayOk(s: TripState, t: TripInputs, plan: WindowPlan, d: Day)
    requires Chain(TripActivities(s.days), t.start, s.current)
    requires s.remaining == t.totalDrive - DriveDone(s.days) && s.remaining > 0
    requires s.cycle == CycleAfter(s.days, t.cycleUsed) && !CycleStop(s.days, t.cycleUsed)
    requires (s.dayIndex == 0) == (s.days == [])
    requires PlannedWindow(plan, s.current, s.remaining, s.cycle, FuelScheduleMinutes(t.distance, t.fuelIntervalMiles, s.remaining),
                           t.fuelStopMinutes, t.stations, if s.dayIndex == 0 then t.pickupMinutes else 0, 0)
    requires d == WindowDay(s.current, plan.activities, plan.warnings, plan.remainingCycleMinutes,
                            plan.driveConsumed, plan.fuelInserted)
    ensures DayOk(s.days, d, t)
  {
    assert WindowPlan(d.activities, d.warnings, d.remainingCycleMinutes, d.driveConsumed, d.fuelInserted) == plan;
    assert EndTime(TripActivities(s.days), t.start) == s.current;
  }

  /** The window day `d`, already known to obey the day rules, is recorded in the trackers. */
  lemma RecordDay(s: TripState, m: TripState, t: TripInputs, d: Day)
    requires TripInv(s, t) && !s.stopped && s.dayIndex < MaxDays
    requires d.WindowDay? && d.activities != [] && Chain(d.activities, s.current, Last(d.activities).end)
    requires 0 <= d.driveConsumed <= s.remaining
    requires m.days == s.days + [d] && TripDays(m.days, t)
    requires m.current == Last(d.activities).end
    requires m.remaining == s.remaining - d.driveConsumed && m.cycle == s.cycle + TotalDuration(d.activities)
    requires m.dayIndex == s.dayIndex && m.fuelTotal == s.fuelTotal + d.fuelInserted && m.warnings == s.warnings
    requires !m.stopped
    ensures MidInv(m, t)
  {
    AppendDay(s.days, d, t.cycleUsed);
    ChainAppend(TripActivities(s.days), d.activities, t.start, s.current, Last(d.activities).end);
  }

  /** The window planned from state `s` is recorded as the next day, giving state `m`. */
  lemma RecordWindow(s: TripState, m: TripState, t: TripInputs, plan: WindowPlan)
    requires TripInv(s, t) && !s.stopped && s.remaining > 0 && s.dayIndex < MaxDays
    requires PlannedWindow(plan, s.current, s.remaining, s.cycle, FuelScheduleMinutes(t.distance, t.fuelIntervalMiles, s.remaining),
                           t.fuelStopMinutes, t.stations, if s.dayIndex == 0 then t.pickupMinutes else 0, 0)
    requires m.days == s.days + [WindowDay(s.current, plan.activities, plan.warnings, plan.remainingCycleMinutes,
                                           plan.driveConsumed, plan.fuelInserted)]
    requires m.current == EndTime(plan.activities, s.current)
    requires m.remaining == s.remaining - plan.driveConsumed && m.cycle == s.cycle + TotalDuration(plan.activities)
    requires m.dayIndex == s.dayIndex && m.fuelTotal == s.fuelTotal + plan.fuelInserted && m.warnings == s.warnings
    requires !m.stopped
    ensures MidInv(m, t)
  {
    var d := WindowDay(s.current, plan.activities, plan.warnings, plan.remainingCycleMinutes,
                       plan.driveConsumed, plan.fuelInserted);
    WindowFacts(plan, s.current, s.remaining, s.cycle, FuelScheduleMinutes(t.distance, t.fuelIntervalMiles, s.remaining),
                t.fuelStopMinutes, t.stations, if s.dayIndex == 0 then t.pickupMinutes else 0);
    WindowDayOk(s, t, plan, d);
    TripDaysAppend(s.days, d, t);
    RecordDay(s, m, t, d);
  }

  /** The cycle is below the limit: on to the next day. */
  lemma ContinueDay(m: TripState, s: TripState, t: TripInputs)
    requires MidInv(m, t) && m.cycle < CycleLimitMinutes
    requires s == TripState(m.days, m.current, m.remaining, m.cycle, m.dayIndex + 1, m.fuelTotal, m.warnings, false)
    ensures TripInv(s, t)
  {
  }

  /** The cycle reached the limit and restarts are allowed: the restart day is recorded. */
  lemma RecordRestart(m: TripState, s: TripState, t: TripInputs)
    requires MidInv(m, t) && m.cycle >= CycleLimitMinutes && t.allowRestart
    requires s.days == m.days + [RestartDay(m.current, [Activity(m.current, m.current + RestartMinutes, OffDuty, Restart34, None)],
                                            [RestartDayNote], CycleLimitMinutes)]
    requires s.current == m.current + RestartMinutes && s.remaining == m.remaining && s.cycle == 0
    requires s.dayIndex == m.dayIndex + 1 && s.fuelTotal == m.fuelTotal && s.warnings == m.warnings + [RestartWarning]
    requires !s.stopped
    ensures TripInv(s, t)
  {
    var d := Last(s.days);
    assert s.days == m.days + [d];
    assert EndTime(TripActivities(m.days), t.start) == m.current;
    assert DayOk(m.days, d, t);
    TripDaysAppend(m.days, d, t);
    AppendDay(m.days, d, t.cycleUsed);
    assert Chain(d.activities, m.current, m.current + RestartMinutes);
    ChainAppend(TripActivities(m.days), d.activities, t.start, m.current, m.current + RestartMinutes);
  }

  /** The cycle reached the limit and restarts are not allowed: the loop stops with the warning. */
  lemma StopAtCycle(m: TripState, s: TripState, t: TripInputs)
    requires MidInv(m, t) && m.cycle >= CycleLimitMinutes && !t.allowRestart
    requires s == TripState(m.days, m.current, m.remaining, m.cycle, m.dayIndex, m.fuelTotal, m.warnings + [CycleWarning], true)
    ensures TripInv(s, t)
  {
  }

  /**
   * Everything the trip planner promises about its result: every day obeys
   * the day rules, the days cover the clock without gaps, at most 30 windows
   * and at most one restart after each, the summary reports the days, the
   * driving left, the expected and the inserted fuel stops, and the loop
   * stops early only at the day bound or at the cycle limit.
   */
  ghost predicate PlannedTrip(trip: TripPlan, t: TripInputs)
  {
    match trip
    case TripPlan(days, summary) =>
      && TripDays(days, t)
      && Chain(TripActivities(days), t.start, EndTime(TripActivities(days), t.start))
      && WindowCount(days) <= MaxDays && |days| <= 2 * WindowCount(days)
      && 0 <= DriveDone(days) <= Max(0, t.totalDrive)
      && summary.totalDriveRequested == t.totalDrive
      && summary.totalDriveRemaining == Max(0, t.totalDrive - DriveDone(days))
      && summary.daysPlanned == |days|
      && summary.fuelStopsExpected == FuelStopsExpected(t.distance, t.fuelIntervalMiles)
      && summary.fuelStopsInserted == FuelDone(days)
      && summary.warnings ==
           Repeat(RestartWarning, RestartCount(days)) + (if CycleStop(days, t.cycleUsed) then [CycleWarning] else [])
      && (t.totalDrive > 0 ==> days != [])
      && (DriveDone(days) < t.totalDrive ==> WindowCount(days) == MaxDays || CycleStop(days, t.cycleUsed))
      && (CycleStop(days, t.cycleUsed) ==> !t.allowRestart)
      && (!t.allowRestart ==> RestartCount(days) == 0)
  }

  /**
   * The summary of a planned trip read against its activities: the driving
   * left is what the drive chunks did not cover, the fuel stops inserted are
   * the fuel-stop activities, and without restarts the trip stops short of
   * its driving only after 30 windows or once the hours used before plus
   * the clock time elapsed reach 70 hours.
   */
  lemma SummaryCountsActivities(trip: TripPlan, t: TripInputs)
    requires PlannedTrip(trip, t)
    ensures trip.summary.totalDriveRemaining == Max(0, t.totalDrive - SumDrive(TripActivities(trip.days)))
    ensures trip.summary.fuelStopsInserted == FuelCount(TripActivities(trip.days))
    ensures !t.allowRestart && SumDrive(TripActivities(trip.days)) < t.totalDrive ==>
              WindowCount(trip.days) == MaxDays ||
              t.cycleUsed + EndTime(TripActivities(trip.days), t.start) - t.start >= CycleLimitMinutes
  {
    TripTotals(trip.days, t);
    if !t.allowRestart {
      CycleIsElapsed(trip.days, t);
    }
  }

  /** When the loop has stopped, the result built from its state is as promised. */
  lemma TripExit(s: TripState, t: TripInputs, trip: TripPlan)
    requires TripInv(s, t) && (s.stopped || s.remaining <= 0 || s.dayIndex >= MaxDays)
    requires trip == TripPlan(s.days, TripSummary(t.totalDrive, Max(0, s.remaining), |s.days|,
                                                  FuelStopsExpected(t.distance, t.fuelIntervalMiles), s.fuelTotal, s.warnings))
    ensures PlannedTrip(trip, t)
  {
    if s.days != [] {
      assert EndTime(TripActivities(s.days), t.start) == s.current;
    }
  }
}

/**
 * The trip planner's loop, proved against the rules of module TripRules.
 */
module TripPlanner {
  import opened Activities
  import opened DutyWindow
  import opened TripRules

  /**
   * The first half of a round of the trip loop: plans the window of the day
   * that starts with the given trip variables, records it as a day, and
   * returns the new day list, clock, driving left, cycle and fuel-stop count.
   */
  method RecordNextWindow(days: seq<Day>, current: int, remaining: int, cycle: int, dayIndex: int, fuelTotal: nat,
                          distance: Option<real>, fuelIntervalMiles: int, fuelStopMinutes: int,
                          pickupMinutes: int, dropoffMinutes: int, stations: seq<Station>,
                          ghost warnings: seq<string>, ghost t: TripInputs)
    returns (days': seq<Day>, current': int, remaining': int, cycle': int, fuelTotal': nat)
    requires TripInv(TripState(days, current, remaining, cycle, dayIndex, fuelTotal, warnings, false), t)
    requires remaining > 0 && dayIndex < MaxDays
    requires distance == t.distance && fuelIntervalMiles == t.fuelIntervalMiles
    requires fuelStopMinutes == t.fuelStopMinutes && stations == t.stations
    requires pickupMinutes == (if dayIndex == 0 then t.pickupMinutes else 0) && dropoffMinutes == 0
    ensures MidInv(TripState(days', current', remaining', cycle', dayIndex, fuelTotal', warnings, false), t)
  {
    var plan := PlanWindow(current, remaining, cycle, distance, fuelIntervalMiles, fuelStopMinutes,
                           pickupMinutes, dropoffMinutes, stations);
    WindowFacts(plan, current, remaining, cycle, FuelScheduleMinutes(distance, fuelIntervalMiles, remaining),
                fuelStopMinutes, stations, pickupMinutes);
    fuelTotal' := fuelTotal + plan.fuelInserted;
    days' := days + [WindowDay(current, plan.activities, plan.warnings, plan.remainingCycleMinutes,
                               plan.driveConsumed, plan.fuelInserted)];
    remaining' := remaining - plan.driveConsumed;
    if plan.activities != [] {
      current' := Last(plan.activities).end;
    } else {
      // a window with driving left always holds an activity
      assert false;
      current' := current + DayMinutes;
    }
    var usedToday := TotalDuration(plan.activities);
    cycle' := cycle + usedToday;
    RecordWindow(TripState(days, current, remaining, cycle, dayIndex, fuelTotal, warnings, false),
                 TripState(days', current', remaining', cycle', dayIndex, fuelTotal', warnings, false), t, plan);
  }

  /**
   * Plans the whole trip from minute `start`: `totalDrive` minutes of
   * driving, `cycleUsed` minutes of the 70-hour cycle already used.
   */
  method PlanTrip(start: int, totalDrive: int, cycleUsed: int, distance: Option<real>, fuelIntervalMiles: int,
                  allowRestart: bool, pickupMinutes: int, dropoffMinutes: int, fuelStopMinutes: int, stations: seq<Station>)
    returns (trip: TripPlan)
    ensures PlannedTrip(trip, TripInputs(start, totalDrive, cycleUsed, distance, fuelIntervalMiles, allowRestart,
                                         pickupMinutes, fuelStopMinutes, stations))
  {
    var remaining := totalDrive;
    var current := start;
    var days: seq<Day> := [];
    var overallWarnings: seq<string> := [];
    var fuelStopsExpected := FuelStopsExpected(distance, fuelIntervalMiles);
    var dayIndex := 0;
    var fuelTotal: nat := 0;
    var cycle := cycleUsed;
    var guard := 0;
    ghost var t := TripInputs(start, totalDrive, cycleUsed, distance, fuelIntervalMiles, allowRestart,
                              pickupMinutes, fuelStopMinutes, stations);
    ghost var stopped := false;
    TripEntry(TripState(days, current, remaining, cycle, dayIndex, fuelTotal, overallWarnings, stopped), t);

    while remaining > 0 && guard < TripGuard && dayIndex < MaxDays
      invariant guard == dayIndex && !stopped
      invariant TripInv(TripState(days, current, remaining, cycle, dayIndex, fuelTotal, overallWarnings, stopped), t)
      decreases MaxDays - dayIndex
    {
      guard := guard + 1;
      days, current, remaining, cycle, fuelTotal :=
        RecordNextWindow(days, current, remaining, cycle, dayIndex, fuelTotal, distance, fuelIntervalMiles,
                         fuelStopMinutes, if dayIndex == 0 then pickupMinutes else 0,
                         if remaining <= 0 then dropoffMinutes else 0, stations, overallWarnings, t);
      ghost var m := TripState(days, current, remaining, cycle, dayIndex, fuelTotal, overallWarnings, false);

      if cycle >= CycleLimitMinutes {
        if allowRestart {
          var restartStart := current;
          var restartEnd := current + RestartMinutes;
          days := days + [RestartDay(restartStart, [Activity(restartStart, restartEnd, OffDuty, Restart34, None)],
                                     [RestartDayNote], CycleLimitMinutes)];
          current := restartEnd;
          cycle := 0;
          overallWarnings := overallWarnings + [RestartWarning];
          RecordRestart(m, TripState(days, current, remaining, cycle, dayIndex + 1, fuelTotal, overallWarnings, false), t);
        } else {
          overallWarnings := overallWarnings + [CycleWarning];
          stopped := true;
          StopAtCycle(m, TripState(days, current, remaining, cycle, dayIndex, fuelTotal, overallWarnings, stopped), t);
          break;
        }
      } else {
        ContinueDay(m, TripState(days, current, remaining, cycle, dayIndex + 1, fuelTotal, overallWarnings, false), t);
      }
      dayIndex := dayIndex + 1;
    }

    trip := TripPlan(days, TripSummary(totalDrive, Max(0, remaining), |days|, fuelStopsExpected, fuelTotal, overallWarnings));
    TripExit(TripState(days, current, remaining, cycle, dayIndex, fuelTotal, overallWarnings, stopped), t, trip);
  }
}
