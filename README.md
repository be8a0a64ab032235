# Hours-of-Service trip planner, modelled in Dafny

This project models the scheduling core of the hos-app backend
(`backend/api/hos_utils.py`). The core turns a trip's total driving time into
a log of duty activities, following the FMCSA property-carrying rules as the
code applies them:

- an optional pickup;
- drive chunks clipped at the 8-hour driving mark and at the 14-hour window;
- a fuel stop after every chunk that reaches the fuel heuristic, carrying the
  next unused station from a station list;
- a 30-minute break once driving reaches 8 hours;
- the window closes with the dropoff, or with a 10-hour off-duty rest, or,
  when the driving is done and no dropoff time is set (always the case inside
  the trip planner), after its last round;
- a 70-hour cycle, at which the trip planner either inserts a 34-hour restart
  or stops with a warning.

It also models the two geometric helpers that feed the station search: the
route sampler and the padded bounding box.

Modules:

- `Activities` (`activities.dfy`): the activity records and the running
  totals over activity sequences: drive minutes, all minutes, minutes counted
  against the cycle, fuel stops and their locations.
- `DutyWindow` (`duty_window.dfy`): `plan_day_schedule_single_window`. The
  window loop is the method `WindowRounds`, with `DriveChunk` for the second
  half of each round. `PlanWindow` is the whole function, proved against the
  predicate `PlannedWindow`. That predicate states:
  - the clock is contiguous;
  - the greedy chunk rule, the fuel-stop rule, the break rule and the order
    of the stations;
  - how the window closes;
  - conservation of driving, and the 8-hour cap;
  - the cycle estimate;
  - a trip that fits in one stint becomes exactly pickup, one drive, an
    optional break and the dropoff.
- `TripRules` and `TripPlanner` (`trip_planner.dfy`): `plan_multi_day_trip`.
  `TripPlanner.PlanTrip` is the day loop. It is proved against
  `TripRules.PlannedTrip`, which states:
  - every day is exactly what the window planner returns from where the
    previous day ended (the day rules of `DayOk`);
  - restart days come only after a window that reached 70 hours, and only
    when restarts are allowed;
  - the summary fields;
  - the loop stops early only at 30 windows or at the cycle limit.

  The lemmas beside it read those promises against the concatenated
  activities of the trip.
- `RouteGeometry` (`route_geometry.dfy`): `sample_route_points` as a method
  proved against the function `RouteSample`, and `bbox_from_points`.

Conventions:

- Time is a whole number of minutes on one clock. The trip starts at minute
  `start`, and every duration the code adds is a whole number of minutes.
- Hours in the source (cycle used, cycle remaining) are minutes here: 70 h is
  4200.
- A day's `date` is the minute its first activity starts at, not a calendar
  date.
- The fuel-station list is an input of the planner.
- The sampler's distance function is a parameter `dist`.

Properties the proofs establish that the source does not spell out:

- The break never resets the driving counter. Driving in one window therefore
  stops at 8 hours, and the 11-hour branch (`hos_utils.py:352-358`) can never
  be taken. The window planner's loop asserts this.
- Inside the trip loop the dropoff time handed to each window is always zero
  (`hos_utils.py:203` tests `remaining_drive <= 0` inside a loop that runs
  only while it is positive). So no planned trip contains a dropoff
  (`TripRules.TripNoDropoff`).
- The trip's cycle adds every minute of each window, the 10-hour rest
  included. Until a restart it therefore equals the hours used before plus
  the clock time elapsed (`TripRules.CycleIsElapsed`). The window's own
  estimate leaves the rest out.
- Every window restarts the station index at 0. Each day therefore hands out
  the station list from its start again.

## Model

| member | source | states |
|---|---|---|
| DutyWindow.PlanWindow | backend/api/hos_utils.py:284-429 | The returned window satisfies `PlannedWindow`: contiguous activities from the start minute; correct statuses; the pickup first and only then; greedy drive chunks (least of driving left, time to the 8-hour mark, time left in the 14-hour window); a fuel stop exactly after chunks reaching the heuristic, carrying the stations in list order; a 30-minute break exactly when driving reaches 8 hours; no 11-hour rest; ends with the dropoff iff driving is done and a dropoff time is set, with the 10-hour rest once the window is spent with driving left, and otherwise (driving done, no dropoff time) after the last round; driving consumed equals the drive chunks, at most the request and at most 8 hours; fuel count equals the fuel stops; remaining cycle is 70 h minus used minus on-duty minutes (breaks in, rest out), floored at 0; no warnings; a trip that fits in one stint is exactly pickup, one drive, optional break, dropoff |
| DutyWindow.WindowRounds | backend/api/hos_utils.py:337-401 | The window loop stops in a state satisfying the loop invariant. It stops with the 10-hour rest appended exactly when the window was spent with driving left, and otherwise with the driving done or the guard spent |
| DutyWindow.DriveChunk | backend/api/hos_utils.py:375-400 | One round appends the drive chunk, then a fuel stop iff the chunk reached the heuristic (with the next station if one is left, advancing the index), then a break iff driving reached 8 hours. It returns the new clock and the fuel and on-duty minutes added |
| DutyWindow.FuelScheduleMinutes | backend/api/hos_utils.py:327-332 | The heuristic is set iff the distance is positive and the interval positive. Then it times max(1, distance) equals interval times drive minutes, and it is positive when driving is |
| DutyWindow.TwoHourTrip | backend/api/hos_utils.py:284-429 | A 2-hour trip with the default 1-hour pickup, dropoff and fuel time is pickup, one 2-hour drive, dropoff: 120 minutes driven, no fuel stop, 66 cycle hours left |
| DutyWindow.LoopStep | backend/api/hos_utils.py:339-401 | One round from a state satisfying the loop invariant keeps it: trace rules, clock contiguity, counters equal to the totals of the activities, and the guard bound |
| DutyWindow.LoopEntry | backend/api/hos_utils.py:321-338 | After the pickup, the loop invariant holds |
| DutyWindow.RoundKeepsTrace | backend/api/hos_utils.py:360-401 | A round whose chunk is the least of the three limits, with the fuel and break decisions of the source, keeps the greedy, fuel, break, station-order and typing rules |
| DutyWindow.RoundCounters | backend/api/hos_utils.py:375-400 | A round adds its chunk to driving, one fuel stop iff fuel was due (with its location), and chunk plus fuel plus break minutes to the on-duty count |
| DutyWindow.RoundClock | backend/api/hos_utils.py:375-400 | The clock advances by the chunk, plus the fuel time if fuel was due, plus 30 minutes if driving reached 8 hours |
| DutyWindow.GreedyRound | backend/api/hos_utils.py:360-373 | The new chunk satisfies the greedy rule, and the earlier ones still do |
| DutyWindow.FuelRound | backend/api/hos_utils.py:383-394 | A fuel stop follows a drive chunk exactly when that chunk reached the heuristic |
| DutyWindow.BreakRound | backend/api/hos_utils.py:396-401 | A break follows exactly the chunk that brings driving to 8 hours |
| DutyWindow.ShortTripRound | backend/api/hos_utils.py:360-407 | The single round of a short trip, followed by the dropoff, is the single stint |
| DutyWindow.CloseWindow | backend/api/hos_utils.py:342-407 | Closing the rounds with the rest or the dropoff keeps every rule. Nothing follows the rest or the dropoff, and no 11-hour rest or restart appears. The counted on-duty minutes grow only by the dropoff |
| DutyWindow.EmptyChunksAfterEightHours | backend/api/hos_utils.py:360-401 | In a planned window, a drive chunk taken once driving has reached 8 hours finds driving at exactly 8 hours, is empty, and is followed by a 30-minute break (after its fuel stop, if one is due): the break never resets the driving counter |
| DutyWindow.WindowExit | backend/api/hos_utils.py:403-429 | The result built from the loop's final counters, the dropoff and the cycle estimate satisfies `PlannedWindow` |
| Activities.AppendAll | backend/api/hos_utils.py:238-242 | Every running total (drive, all minutes, cycle minutes, fuel count, fuel locations) of two runs placed end to end is the sum of theirs |
| Activities.TotalDurationTelescopes | backend/api/hos_utils.py:238-242 | The summed durations of a contiguous run equal the clock time it spans |
| Activities.RestOnlyLast | backend/api/hos_utils.py:409-411 | When only the last activity can be a rest, all minutes equal the cycle-counted minutes plus that rest |
| TripRules.FuelStopsExpected | backend/api/hos_utils.py:176-179 | 0 when the distance is unknown, zero or negative, or the interval is not positive. Otherwise n intervals fit in the distance and n + 1 do not (the floor) |
| TripRules.WindowDayFacts | backend/api/hos_utils.py:195-223 | A window day of a planned trip is non-empty and has no dropoff. A pickup appears only as the first activity of the first day. The day drives exactly its drive chunks, at most 8 hours, and something after the first day. Its fuel count is its fuel stops. Its minutes are its counted on-duty minutes plus the 10-hour rest when it ends with one |
| TripRules.RestartDayFacts | backend/api/hos_utils.py:248-259 | A restart day holds only the 34-hour restart, no driving and no fuel stop |
| TripRules.TripTotals | backend/api/hos_utils.py:208-242 | Driving done equals the trip's drive chunks, and fuel stops reported equal the trip's fuel-stop activities. Before any restart, the cycle equals the hours used before plus all the trip's minutes |
| TripRules.TripNoDropoff | backend/api/hos_utils.py:195-205 | No day of a planned trip contains a dropoff |
| TripRules.TripPickupFirst | backend/api/hos_utils.py:195-205 | A pickup occurs only as the first activity of the first day, and only when a pickup time is set |
| TripRules.TripWindowsDrive | backend/api/hos_utils.py:195-226 | Every window drives at most 8 hours, and every window but the first drives something |
| TripRules.CycleIsElapsed | backend/api/hos_utils.py:237-246 | Until a restart, the trip's cycle equals the hours used before plus the clock time elapsed since the start |
| TripRules.TripDaysAppend | backend/api/hos_utils.py:216-223 | Appending a day that obeys the day rules keeps every day of the list obeying them |
| TripRules.TripEntry | backend/api/hos_utils.py:158-191 | The initial state satisfies the trip loop invariant |
| TripRules.WindowDayOk | backend/api/hos_utils.py:195-223 | The window the planner returns from the current clock, driving left and cycle is a valid day after the days so far |
| TripRules.RecordWindow | backend/api/hos_utils.py:195-243 | Recording a planned window keeps the trackers equal to the day list: driving left, clock at the last activity's end, cycle plus all the window's minutes, fuel total |
| TripRules.RecordDay | backend/api/hos_utils.py:208-243 | Appending a window day and advancing the trackers keeps them equal to the day totals |
| TripRules.ContinueDay | backend/api/hos_utils.py:246-271 | Below the cycle limit, the next day starts with the invariant intact |
| TripRules.RecordRestart | backend/api/hos_utils.py:246-265 | At the cycle limit with restarts allowed: a day with one 34-hour off-duty restart, the clock moved 34 hours, the cycle reset to 0, one restart warning added |
| TripRules.StopAtCycle | backend/api/hos_utils.py:266-269 | At the cycle limit without restarts: the cycle warning is added and the loop stops |
| TripRules.TripExit | backend/api/hos_utils.py:273-282 | The summary built after the loop reports the request, the driving left (floored at 0), the day count, the expected and the inserted fuel stops, and the warnings |
| TripRules.SummaryCountsActivities | backend/api/hos_utils.py:273-280 | The driving left equals the request minus the trip's drive chunks, and the fuel stops inserted equal the trip's fuel-stop activities. Without restarts, a trip left short of its driving has 30 windows, or hours used plus elapsed clock time of at least 70 hours |
| TripPlanner.RecordNextWindow | backend/api/hos_utils.py:195-243 | Planning the day's window and recording it yields a state in which every day obeys the day rules and the trackers agree with the days |
| TripPlanner.PlanTrip | backend/api/hos_utils.py:122-282 | The plan satisfies `PlannedTrip`: every day obeys the day rules, the days cover the clock contiguously, at most 30 windows, a restart only after a window reaching 70 hours and only if allowed, every summary field as computed, the warnings in order, and driving left over only at 30 windows or at the cycle stop |
| RouteGeometry.SampleRoutePoints | backend/api/hos_utils.py:20-41 | The sample equals `RouteSample` of the route. It is empty iff the route is, starts with the first point, ends with the last, and is no longer than the route |
| RouteGeometry.RouteSampleShape | backend/api/hos_utils.py:25-41 | The sample is the route at strictly increasing indices, starting with index 0 and ending with the last point |
| RouteGeometry.RoutePicksIncreasing | backend/api/hos_utils.py:27-40 | The kept indices are strictly increasing, start at 0 and end at a point equal to the last one |
| RouteGeometry.KeepAll | backend/api/hos_utils.py:30-38 | With a non-positive sample distance and non-negative distances, every point is kept |
| RouteGeometry.BBoxFromPoints | backend/api/hos_utils.py:106-120 | Both points lie inside the box, at least 0.01 degrees from every edge. Each axis's margin is the same on both sides and equals the larger of 0.01 and pad times the span |
| RouteGeometry.BBoxSymmetric | backend/api/hos_utils.py:106-120 | The box does not depend on the order of the two points |

## Left out

- `find_fuel_stations_near_points` and `find_fuel_stations_bbox` (HTTP calls to Overpass, de-duplication, shuffling) are not part of this model. Their result, the station list, is an input of `PlanTrip` and `PlanWindow`.
- `decode_route_polyline` (a third-party decoder) is not part of this model. The sampler takes the decoded points.
- The choice between polyline and bounding-box search (`hos_utils.py:165-172`) is left out with the search it selects.
- RouteGeometry.SampleRoutePoints: the equirectangular distance (cosine of the latitude, square root) is the parameter `dist`, because the model has no trigonometry. The shape lemmas (`RouteSampleShape`, `RoutePicksIncreasing`) hold for any distance function; `KeepAll` assumes distances are non-negative.
- Datetimes and their ISO formatting are left out. Times are minutes from the start, and a day's date is its first minute, not a calendar day.
- The free-text `note` fields of activities are left out. The restart day's warning text and the trip warnings are kept verbatim.
- Fractional minutes are left out: all durations are whole minutes. The source's `int(...)` truncations of minute counts are then identities, and hours are kept as minutes.
- Floating-point rounding is left out: the distance and the fuel heuristic are exact reals.
- `cycle_hours_remaining` and `msg` in `plan_multi_day_trip` are computed but never used, and are left out.
- The `current + 1 day` fallback for a window with no activities (`hos_utils.py:233-235`) is proved unreachable: a window with driving left always holds an activity.
- The trip loop's guard of 2000 rounds is modelled, but the 30-day bound is always reached first.
- The 11-hour rest branch (`hos_utils.py:352-358`) and the `max_chunk_minutes <= 0` break (`hos_utils.py:366-367`) are proved unreachable: the window loop asserts that neither is ever taken.
