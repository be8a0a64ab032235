/**
 * One duty window of the Hours-of-Service planner: an optional pickup, then
 * rounds of "drive a chunk, maybe a fuel stop, maybe a 30-minute break",
 * closed by the dropoff (when the trip's driving is used up and a dropoff
 * time is set), by a 10-hour off-duty rest (when the 14-hour window has run
 * out), or by nothing (driving used up and no dropoff time).
 *
 * The chunk is clipped at the 8-hour driving mark and the driving counter
 * is never reset by the break, so driving in a window stops at 8 hours: the
 * 11-hour check is never the one that ends a window, and after 8 hours the
 * planner writes zero-length drive chunks, each followed by a break, until
 * the 14-hour window closes. The contracts below state this.
 */
module DutyWindow {
  import opened Activities

  /** What one call of the window planner returns. */
  datatype WindowPlan = WindowPlan(
    activities: seq<Activity>,
    warnings: seq<string>,
    remainingCycleMinutes: int,
    driveConsumed: int,
    fuelInserted: nat)

  /** Safety bound on the number of loop rounds. */
  const LoopGuard: int := 2000

  /**
   * The fuel-stop heuristic: a chunk at least this long is followed by a fuel
   * stop. It is the trip's drive time scaled by fuel interval over distance,
   * and it is set only when both the distance and the interval are positive.
   */
  function FuelScheduleMinutes(distance: Option<real>, fuelIntervalMiles: int, totalDrive: int): (t: Option<real>)
    ensures t.Some? <==> distance.Some? && distance.value > 0.0 && fuelIntervalMiles > 0
    ensures t.Some? ==> t.value * RMax(1.0, distance.value) == fuelIntervalMiles as real * totalDrive as real
    ensures t.Some? && totalDrive > 0 ==> t.value > 0.0
  {
    if distance.Some? && distance.value != 0.0 && fuelIntervalMiles > 0 then
      if distance.value > 0.0 then
        Some((fuelIntervalMiles as real / RMax(1.0, distance.value)) * totalDrive as real)
      else None
    else None
  }

  /** A chunk triggers a fuel stop when the heuristic is set, non-zero, and reached. */
  predicate FuelDue(threshold: Option<real>, chunk: int)
  {
    threshold.Some? && threshold.value != 0.0 && chunk as real >= threshold.value
  }

  /** The clock minutes the pickup takes; a non-positive pickup is skipped. */
  function PickupApplied(pickupMinutes: int): (m: nat)
  {
    if pickupMinutes > 0 then pickupMinutes else 0
  }

  function PickupPart(start: int, pickupMinutes: int): (acts: seq<Activity>)
  {
    if pickupMinutes > 0 then [Activity(start, start + pickupMinutes, OnDuty, Pickup, None)] else []
  }

  /**
   * The window a short trip gets: pickup, the whole drive in one chunk, a
   * break only if that chunk is exactly 8 hours, and the dropoff.
   */
  function SingleStint(start: int, totalDrive: int, pickupMinutes: int, dropoffMinutes: int): (acts: seq<Activity>)
  {
    var t0 := start + PickupApplied(pickupMinutes);
    var t1 := t0 + totalDrive;
    var rest := if totalDrive >= BreakAfterMinutes then [Activity(t1, t1 + BreakMinutes, OffDuty, Break, None)] else [];
    var t2 := if totalDrive >= BreakAfterMinutes then t1 + BreakMinutes else t1;
    PickupPart(start, pickupMinutes) + [Activity(t0, t1, Driving, Drive, None)] + rest +
      DropoffPart(t2, dropoffMinutes)
  }

  function DropoffPart(t: int, dropoffMinutes: int): (acts: seq<Activity>)
  {
    if dropoffMinutes != 0 then [Activity(t, t + dropoffMinutes, OnDuty, Dropoff, None)] else []
  }

  /** `x` is the least of `a`, `b` and `c`. */
  predicate IsLeast(x: int, a: int, b: int, c: int)
  {
    x <= a && x <= b && x <= c && (x == a || x == b || x == c)
  }

  /** The pickup, when there is one, is the first activity and the only pickup. */
  ghost predicate PickupFirst(acts: seq<Activity>, start: int, pickupMinutes: int)
  {
    (pickupMinutes > 0 ==> |acts| > 0 && acts[0] == Activity(start, start + pickupMinutes, OnDuty, Pickup, None)) &&
    (forall i :: 0 <= i < |acts| ==> PickupAt(acts, i, pickupMinutes))
  }

  ghost predicate PickupAt(acts: seq<Activity>, i: int, pickupMinutes: int)
    requires 0 <= i < |acts|
  {
    acts[i].kind == Pickup ==> i == 0 && pickupMinutes > 0
  }

  /**
   * A drive chunk is taken while trip driving remains and the 14-hour window
   * is open, and it is as long as the least of: the driving left, the time to
   * the 8-hour driving mark, and the time left in the window.
   */
  ghost predicate GreedyAt(acts: seq<Activity>, i: int, start: int, totalDrive: int)
    requires 0 <= i < |acts|
  {
    acts[i].kind == Drive ==>
      SumDrive(acts[..i]) < totalDrive && acts[i].start < start + MaxWindowMinutes &&
      IsLeast(Duration(acts[i]), totalDrive - SumDrive(acts[..i]),
              BreakAfterMinutes - SumDrive(acts[..i]), start + MaxWindowMinutes - acts[i].start)
  }

  ghost predicate DrivesGreedy(acts: seq<Activity>, start: int, totalDrive: int)
  {
    forall i :: 0 <= i < |acts| ==> GreedyAt(acts, i, start, totalDrive)
  }

  /** A fuel stop comes right after a drive chunk that reached the heuristic, and lasts the fuel-stop time. */
  ghost predicate FuelAt(acts: seq<Activity>, i: int, threshold: Option<real>, fuelStopMinutes: int)
    requires 0 <= i < |acts|
  {
    acts[i].kind == FuelStop ==>
      0 < i && acts[i - 1].kind == Drive && FuelDue(threshold, Duration(acts[i - 1])) &&
      Duration(acts[i]) == fuelStopMinutes
  }

  /** A drive chunk that reached the heuristic is followed by a fuel stop. */
  ghost predicate FuelFollows(acts: seq<Activity>, i: int, threshold: Option<real>)
    requires 0 <= i < |acts|
  {
    acts[i].kind == Drive && FuelDue(threshold, Duration(acts[i])) ==>
      i + 1 < |acts| && acts[i + 1].kind == FuelStop
  }

  /** A fuel stop follows a drive chunk exactly when that chunk reached the heuristic. */
  ghost predicate FuelAfterDrive(acts: seq<Activity>, threshold: Option<real>, fuelStopMinutes: int)
  {
    forall i :: 0 <= i < |acts| ==> FuelAt(acts, i, threshold, fuelStopMinutes) && FuelFollows(acts, i, threshold)
  }

  /** A break lasts 30 minutes, comes when driving has reached 8 hours, right after a drive chunk (or its fuel stop). */
  ghost predicate BreakAt(acts: seq<Activity>, i: int)
    requires 0 <= i < |acts|
  {
    acts[i].kind == Break ==>
      Duration(acts[i]) == BreakMinutes && SumDrive(acts[..i]) == BreakAfterMinutes &&
      0 < i && (acts[i - 1].kind == Drive || (1 < i && acts[i - 1].kind == FuelStop && acts[i - 2].kind == Drive))
  }

  /** A drive chunk that brings the driving to 8 hours is followed by a break (after its fuel stop, if any). */
  ghost predicate BreakFollows(acts: seq<Activity>, i: int)
    requires 0 <= i < |acts|
  {
    acts[i].kind == Drive && SumDrive(acts[..i + 1]) == BreakAfterMinutes ==>
      (i + 1 < |acts| && acts[i + 1].kind == Break) ||
      (i + 2 < |acts| && acts[i + 1].kind == FuelStop && acts[i + 2].kind == Break)
  }

  /** The activity after drive chunk `i`, or the one after its fuel stop, is a break. */
  ghost predicate BreakComesNext(acts: seq<Activity>, i: int)
    requires 0 <= i < |acts|
  {
    (i + 1 < |acts| && acts[i + 1].kind == Break) ||
    (i + 2 < |acts| && acts[i + 1].kind == FuelStop && acts[i + 2].kind == Break)
  }

  /** A 30-minute break is written exactly when the driving so far has reached 8 hours. */
  ghost predicate BreakAtEightHours(acts: seq<Activity>)
  {
    forall i :: 0 <= i < |acts| ==> BreakAt(acts, i) && BreakFollows(acts, i)
  }

  /** Inside a window's rounds: only pickups, drives, fuel stops and breaks, and only fuel stops may run backwards. */
  ghost predicate RoundShapeAt(acts: seq<Activity>, i: int)
    requires 0 <= i < |acts|
  {
    acts[i].kind in {Pickup, Drive, FuelStop, Break} && (acts[i].kind != FuelStop ==> acts[i].start <= acts[i].end)
  }

  /** The fuel stops carry the stations in list order, once each, and nothing once the list runs out. */
  ghost predicate StationsInOrder(acts: seq<Activity>, stations: seq<Station>)
  {
    FuelLocations(acts) == Attached(stations, FuelCount(acts))
  }

  /** The station the `k`-th fuel stop of a window carries. */
  function StationFor(stations: seq<Station>, k: nat): (loc: Option<Station>)
  {
    if k < |stations| then Some(stations[k]) else None
  }

  /** The activities one round of the loop writes, starting at minute `t`. */
  function RoundActs(t: int, chunk: int, fuel: bool, location: Option<Station>, fuelStopMinutes: int, rest: bool): (acts: seq<Activity>)
  {
    var d := Activity(t, t + chunk, Driving, Drive, None);
    var f := Activity(t + chunk, t + chunk + fuelStopMinutes, OnDuty, FuelStop, location);
    var t2 := if fuel then t + chunk + fuelStopMinutes else t + chunk;
    var b := Activity(t2, t2 + BreakMinutes, OffDuty, Break, None);
    if fuel && rest then [d, f, b]
    else if fuel then [d, f]
    else if rest then [d, b]
    else [d]
  }

  /** What holds of the activities at the top of every round. */
  ghost predicate RoundTrace(acts: seq<Activity>, start: int, totalDrive: int, threshold: Option<real>,
                             fuelStopMinutes: int, stations: seq<Station>, pickupMinutes: int)
  {
    && WellTyped(acts)
    && PickupFirst(acts, start, pickupMinutes)
    && (forall i :: 0 <= i < |acts| ==> RoundShapeAt(acts, i))
    && DrivesGreedy(acts, start, totalDrive)
    && FuelAfterDrive(acts, threshold, fuelStopMinutes)
    && BreakAtEightHours(acts)
    && StationsInOrder(acts, stations)
    && 0 <= SumDrive(acts) <= BreakAfterMinutes
  }

  /** What one round adds to each running total. */
  lemma RoundCounters(acts: seq<Activity>, t: int, chunk: int, fuel: bool, location: Option<Station>,
                      fuelStopMinutes: int, rest: bool)
    ensures var r := RoundActs(t, chunk, fuel, location, fuelStopMinutes, rest);
      && SumDrive(acts + r) == SumDrive(acts) + chunk
      && FuelCount(acts + r) == FuelCount(acts) + (if fuel then 1 else 0)
      && FuelLocations(acts + r) == FuelLocations(acts) + (if fuel then [location] else [])
      && CountedOnDuty(acts + r) == CountedOnDuty(acts) + chunk + (if fuel then fuelStopMinutes else 0) + (if rest then BreakMinutes else 0)
  {
    var r := RoundActs(t, chunk, fuel, location, fuelStopMinutes, rest);
    AppendAll(acts, r);
    RoundTotals(t, chunk, fuel, location, fuelStopMinutes, rest);
  }

  /** The running totals of one round on its own. */
  lemma RoundTotals(t: int, chunk: int, fuel: bool, location: Option<Station>, fuelStopMinutes: int, rest: bool)
    ensures var r := RoundActs(t, chunk, fuel, location, fuelStopMinutes, rest);
      && SumDrive(r) == chunk
      && FuelCount(r) == (if fuel then 1 else 0)
      && FuelLocations(r) == (if fuel then [location] else [])
      && CountedOnDuty(r) == chunk + (if fuel then fuelStopMinutes else 0) + (if rest then BreakMinutes else 0)
  {
    var d := Activity(t, t + chunk, Driving, Drive, None);
    var f := Activity(t + chunk, t + chunk + fuelStopMinutes, OnDuty, FuelStop, location);
    var t2 := if fuel then t + chunk + fuelStopMinutes else t + chunk;
    var b := Activity(t2, t2 + BreakMinutes, OffDuty, Break, None);
    var r := RoundActs(t, chunk, fuel, location, fuelStopMinutes, rest);
    AppendOne([], d);
    assert [] + [d] == [d];
    if fuel && rest {
      assert r == [d, f] + [b];
      AppendOne([d], f);
      assert [d] + [f] == [d, f];
      AppendOne([d, f], b);
    } else if fuel {
      assert r == [d] + [f];
      AppendOne([d], f);
    } else if rest {
      assert r == [d] + [b];
      AppendOne([d], b);
    } else {
      assert r == [d];
    }
  }

  lemma RoundChain(acts: seq<Activity>, start: int, t: int, chunk: int, fuel: bool, location: Option<Station>,
                   fuelStopMinutes: int, rest: bool)
    requires Chain(acts, start, t)
    ensures var r := RoundActs(t, chunk, fuel, location, fuelStopMinutes, rest);
      Chain(acts + r, start, Last(r).end)
  {
    var r := RoundActs(t, chunk, fuel, location, fuelStopMinutes, rest);
    assert Chain(r, t, Last(r).end);
    ChainAppend(acts, r, start, t, Last(r).end);
  }

  /** The new drive chunk of a round obeys the greedy rule, and the old ones still do. */
  lemma GreedyRound(acts: seq<Activity>, start: int, t: int, totalDrive: int, chunk: int, fuel: bool,
                    location: Option<Station>, fuelStopMinutes: int, rest: bool)
    requires DrivesGreedy(acts, start, totalDrive)
    requires SumDrive(acts) < totalDrive && t < start + MaxWindowMinutes
    requires IsLeast(chunk, totalDrive - SumDrive(acts), BreakAfterMinutes - SumDrive(acts), start + MaxWindowMinutes - t)
    ensures DrivesGreedy(acts + RoundActs(t, chunk, fuel, location, fuelStopMinutes, rest), start, totalDrive)
  {
    var a := acts + RoundActs(t, chunk, fuel, location, fuelStopMinutes, rest);
    var n := |acts|;
    forall i | 0 <= i < |a| ensures GreedyAt(a, i, start, totalDrive) {
      if i < n {
        assert GreedyAt(acts, i, start, totalDrive);
        assert a[i] == acts[i] && a[..i] == acts[..i];
      } else if i == n {
        assert a[..i] == acts;
      }
    }
  }

  /** A round writes its fuel stop right after its drive chunk, exactly when the chunk reached the heuristic. */
  lemma FuelRound(acts: seq<Activity>, t: int, threshold: Option<real>, chunk: int, fuel: bool,
                  location: Option<Station>, fuelStopMinutes: int, rest: bool)
    requires FuelAfterDrive(acts, threshold, fuelStopMinutes)
    requires fuel == FuelDue(threshold, chunk)
    ensures FuelAfterDrive(acts + RoundActs(t, chunk, fuel, location, fuelStopMinutes, rest), threshold, fuelStopMinutes)
  {
    var a := acts + RoundActs(t, chunk, fuel, location, fuelStopMinutes, rest);
    var n := |acts|;
    forall i | 0 <= i < |a| ensures FuelAt(a, i, threshold, fuelStopMinutes) && FuelFollows(a, i, threshold) {
      if i < n {
        assert FuelAt(acts, i, threshold, fuelStopMinutes) && FuelFollows(acts, i, threshold);
        assert a[i] == acts[i];
        if 0 < i { assert a[i - 1] == acts[i - 1]; }
        if i + 1 < n { assert a[i + 1] == acts[i + 1]; }
      }
    }
  }

  /** A round ends with a break exactly when its chunk brings the driving to 8 hours. */
  lemma BreakRound(acts: seq<Activity>, t: int, chunk: int, fuel: bool, location: Option<Station>,
                   fuelStopMinutes: int, rest: bool)
    requires BreakAtEightHours(acts)
    requires 0 <= chunk && SumDrive(acts) + chunk <= BreakAfterMinutes
    requires rest == (SumDrive(acts) + chunk >= BreakAfterMinutes)
    ensures BreakAtEightHours(acts + RoundActs(t, chunk, fuel, location, fuelStopMinutes, rest))
  {
    var r := RoundActs(t, chunk, fuel, location, fuelStopMinutes, rest);
    var a := acts + r;
    var n := |acts|;
    assert a[..n] == acts;
    SumDriveStep(a, n);
    if fuel { SumDriveStep(a, n + 1); }
    forall i | 0 <= i < |a| ensures BreakAt(a, i) && BreakFollows(a, i) {
      if i < n {
        assert BreakAt(acts, i) && BreakFollows(acts, i);
        assert a[i] == acts[i] && a[..i] == acts[..i] && a[..i + 1] == acts[..i + 1];
        if 0 < i { assert a[i - 1] == acts[i - 1]; }
        if 1 < i { assert a[i - 2] == acts[i - 2]; }
        if i + 1 < n { assert a[i + 1] == acts[i + 1]; }
        if i + 2 < n { assert a[i + 2] == acts[i + 2]; }
      }
    }
  }

  /** Statuses, the pickup, the kinds and the signs of the durations after a round. */
  lemma ShapeRound(acts: seq<Activity>, start: int, t: int, chunk: int, fuel: bool, location: Option<Station>,
                   fuelStopMinutes: int, rest: bool, pickupMinutes: int)
    requires WellTyped(acts) && PickupFirst(acts, start, pickupMinutes)
    requires forall i :: 0 <= i < |acts| ==> RoundShapeAt(acts, i)
    requires 0 <= chunk
    ensures var a := acts + RoundActs(t, chunk, fuel, location, fuelStopMinutes, rest);
      && WellTyped(a) && PickupFirst(a, start, pickupMinutes)
      && (forall i :: 0 <= i < |a| ==> RoundShapeAt(a, i))
  {
    var a := acts + RoundActs(t, chunk, fuel, location, fuelStopMinutes, rest);
    var n := |acts|;
    if pickupMinutes > 0 { assert a[0] == acts[0]; }
    forall i | 0 <= i < |a| ensures TypedAt(a, i) && PickupAt(a, i, pickupMinutes) && RoundShapeAt(a, i) {
      if i < n {
        assert TypedAt(acts, i) && PickupAt(acts, i, pickupMinutes) && RoundShapeAt(acts, i);
        assert a[i] == acts[i];
      }
    }
  }

  /** The pickup alone satisfies the trace invariant. */
  lemma PickupTrace(start: int, totalDrive: int, threshold: Option<real>, fuelStopMinutes: int,
                    stations: seq<Station>, pickupMinutes: int)
    ensures RoundTrace(PickupPart(start, pickupMinutes), start, totalDrive, threshold, fuelStopMinutes, stations, pickupMinutes)
  {
    assert Attached(stations, 0) == [];
    if pickupMinutes > 0 {
      var x := Activity(start, start + pickupMinutes, OnDuty, Pickup, None);
      var p := [x];
      assert PickupPart(start, pickupMinutes) == p;
      assert SumDrive(p) == 0 && FuelCount(p) == 0 && FuelLocations(p) == [] by {
        assert p == [] + [x];
        AppendOne([], x);
      }
      assert WellTyped(p) && PickupFirst(p, start, pickupMinutes) && (forall i :: 0 <= i < |p| ==> RoundShapeAt(p, i)) by {
        forall i | 0 <= i < |p| ensures TypedAt(p, i) && RoundShapeAt(p, i) && PickupAt(p, i, pickupMinutes) {
          assert i == 0 && p[i] == x;
        }
      }
      assert DrivesGreedy(p, start, totalDrive) && FuelAfterDrive(p, threshold, fuelStopMinutes) && BreakAtEightHours(p) by {
        forall i | 0 <= i < |p|
          ensures GreedyAt(p, i, start, totalDrive) && FuelAt(p, i, threshold, fuelStopMinutes) && FuelFollows(p, i, threshold)
          ensures BreakAt(p, i) && BreakFollows(p, i)
        {
          assert i == 0 && p[i] == x;
        }
      }
    }
  }

  /** A short trip's one round, with the dropoff after it, is the single stint. */
  lemma ShortTripRound(start: int, totalDrive: int, pickupMinutes: int, dropoffMinutes: int, fuelStopMinutes: int)
    requires 0 < totalDrive <= BreakAfterMinutes
    ensures var t := start + PickupApplied(pickupMinutes);
      var r := RoundActs(t, totalDrive, false, None, fuelStopMinutes, totalDrive >= BreakAfterMinutes);
      PickupPart(start, pickupMinutes) + r + DropoffPart(Last(r).end, dropoffMinutes)
        == SingleStint(start, totalDrive, pickupMinutes, dropoffMinutes)
  {
  }

  /** One more round keeps the trace invariant. */
  lemma RoundKeepsTrace(acts: seq<Activity>, start: int, t: int, totalDrive: int, threshold: Option<real>,
                        fuelStopMinutes: int, stations: seq<Station>, pickupMinutes: int, chunk: int, fuel: bool, rest: bool)
    requires RoundTrace(acts, start, totalDrive, threshold, fuelStopMinutes, stations, pickupMinutes)
    requires SumDrive(acts) < totalDrive && t < start + MaxWindowMinutes
    requires IsLeast(chunk, totalDrive - SumDrive(acts), BreakAfterMinutes - SumDrive(acts), start + MaxWindowMinutes - t)
    requires fuel == FuelDue(threshold, chunk)
    requires rest == (SumDrive(acts) + chunk >= BreakAfterMinutes)
    ensures var r := RoundActs(t, chunk, fuel, StationFor(stations, FuelCount(acts)), fuelStopMinutes, rest);
      RoundTrace(acts + r, start, totalDrive, threshold, fuelStopMinutes, stations, pickupMinutes)
  {
    var loc := StationFor(stations, FuelCount(acts));
    RoundCounters(acts, t, chunk, fuel, loc, fuelStopMinutes, rest);
    GreedyRound(acts, start, t, totalDrive, chunk, fuel, loc, fuelStopMinutes, rest);
    FuelRound(acts, t, threshold, chunk, fuel, loc, fuelStopMinutes, rest);
    BreakRound(acts, t, chunk, fuel, loc, fuelStopMinutes, rest);
    ShapeRound(acts, start, t, chunk, fuel, loc, fuelStopMinutes, rest, pickupMinutes);
    assert Attached(stations, FuelCount(acts) + 1) == Attached(stations, FuelCount(acts)) + [loc];
  }

  /** Whatever closes the window (rest or dropoff) leaves the round rules intact. */
  lemma ClosingKeepsRules(acts: seq<Activity>, x: Activity, start: int, totalDrive: int, threshold: Option<real>,
                          fuelStopMinutes: int, stations: seq<Station>, pickupMinutes: int)
    requires RoundTrace(acts, start, totalDrive, threshold, fuelStopMinutes, stations, pickupMinutes)
    requires x.kind in {Dropoff, WindowEnd, LimitReached} && x.status == StatusOf(x.kind) && x.location == None
    ensures var a := acts + [x];
      && WellTyped(a)
      && PickupFirst(a, start, pickupMinutes)
      && DrivesGreedy(a, start, totalDrive)
      && FuelAfterDrive(a, threshold, fuelStopMinutes)
      && BreakAtEightHours(a)
      && StationsInOrder(a, stations)
  {
    var a := acts + [x];
    var n := |acts|;
    AppendOne(acts, x);
    if pickupMinutes > 0 { assert a[0] == acts[0]; }
    forall i | 0 <= i < |a|
      ensures TypedAt(a, i) && PickupAt(a, i, pickupMinutes) && GreedyAt(a, i, start, totalDrive) &&
              FuelAt(a, i, threshold, fuelStopMinutes) && FuelFollows(a, i, threshold) &&
              BreakAt(a, i) && BreakFollows(a, i)
    {
      if i < n {
        assert TypedAt(acts, i) && PickupAt(acts, i, pickupMinutes) && GreedyAt(acts, i, start, totalDrive);
        assert FuelAt(acts, i, threshold, fuelStopMinutes) && FuelFollows(acts, i, threshold);
        assert BreakAt(acts, i) && BreakFollows(acts, i);
        assert a[i] == acts[i] && a[..i] == acts[..i] && a[..i + 1] == acts[..i + 1];
        if 0 < i { assert a[i - 1] == acts[i - 1]; }
        if 1 < i { assert a[i - 2] == acts[i - 2]; }
        if i + 1 < n { assert a[i + 1] == acts[i + 1]; }
        if i + 2 < n { assert a[i + 2] == acts[i + 2]; }
      }
    }
  }

  /** The window's rounds, closed by at most one rest or dropoff, obey every rule of the window. */
  lemma CloseWindow(open: seq<Activity>, tail: seq<Activity>, start: int, totalDrive: int, threshold: Option<real>,
                    fuelStopMinutes: int, stations: seq<Station>, pickupMinutes: int)
    requires RoundTrace(open, start, totalDrive, threshold, fuelStopMinutes, stations, pickupMinutes)
    requires |tail| <= 1
    requires tail != [] ==> tail[0].kind in {WindowEnd, Dropoff} && tail[0].status == StatusOf(tail[0].kind) &&
                            tail[0].location == None && (tail[0].kind == WindowEnd ==> tail[0].start <= tail[0].end)
    ensures var a := open + tail;
      && WellTyped(a)
      && PickupFirst(a, start, pickupMinutes)
      && DrivesGreedy(a, start, totalDrive)
      && FuelAfterDrive(a, threshold, fuelStopMinutes)
      && BreakAtEightHours(a)
      && StationsInOrder(a, stations)
      && (forall i :: 0 <= i < |a| ==> a[i].kind != LimitReached && a[i].kind != Restart34)
      && (forall i :: 0 <= i < |a| && a[i].kind != FuelStop && a[i].kind != Dropoff ==> a[i].start <= a[i].end)
      && (forall i :: 0 <= i < |a| - 1 ==> !IsRest(a[i].kind) && a[i].kind != Dropoff)
      && (|a| > 0 && Last(a).kind in {WindowEnd, Dropoff} ==> tail != [] && Last(a) == tail[0])
      && SumDrive(a) == SumDrive(open)
      && FuelCount(a) == FuelCount(open)
      && CountedOnDuty(a) == CountedOnDuty(open) + (if tail != [] && tail[0].kind == Dropoff then Duration(tail[0]) else 0)
  {
    var a := open + tail;
    if tail == [] {
      assert a == open;
      forall i | 0 <= i < |a| ensures a[i].kind != LimitReached && a[i].kind != Restart34 &&
                                      (a[i].kind != FuelStop ==> a[i].start <= a[i].end) &&
                                      !IsRest(a[i].kind) && a[i].kind != Dropoff {
        assert RoundShapeAt(open, i);
      }
    } else {
      ClosingKeepsRules(open, tail[0], start, totalDrive, threshold, fuelStopMinutes, stations, pickupMinutes);
      AppendOne(open, tail[0]);
      assert a == open + [tail[0]];
      forall i | 0 <= i < |a| ensures a[i].kind != LimitReached && a[i].kind != Restart34 &&
                                      (a[i].kind != FuelStop && a[i].kind != Dropoff ==> a[i].start <= a[i].end) &&
                                      (i < |a| - 1 ==> !IsRest(a[i].kind) && a[i].kind != Dropoff) {
        if i < |open| { assert a[i] == open[i] && RoundShapeAt(open, i); }
      }
    }
  }

  /** A trip whose driving fits in one stint of the window, with no fuel stop due. */
  predicate ShortTrip(totalDrive: int, pickupMinutes: int, threshold: Option<real>)
  {
    0 < totalDrive <= BreakAfterMinutes && PickupApplied(pickupMinutes) + totalDrive <= MaxWindowMinutes &&
    !FuelDue(threshold, totalDrive)
  }

  /** The inputs of one window that stay fixed while it is planned. */
  datatype WindowInputs = WindowInputs(start: int, totalDrive: int, threshold: Option<real>, fuelStopMinutes: int,
                                       stations: seq<Station>, pickupMinutes: int, dropoffMinutes: int)

  /**
   * The window loop's state at the top of a round: the activities written so
   * far, the clock, the trip driving done, the fuel stops written, the
   * stations used, the minutes counted against the cycle, the rounds run.
   */
  datatype LoopState = LoopState(acts: seq<Activity>, current: int, consumed: int, fuelInserted: nat, poiIndex: nat,
                                 onDuty: int, loopGuard: int)

  /** The invariant of the window loop. */
  ghost predicate LoopInv(s: LoopState, w: WindowInputs)
  {
    && RoundTrace(s.acts, w.start, w.totalDrive, w.threshold, w.fuelStopMinutes, w.stations, w.pickupMinutes)
    && Chain(s.acts, w.start, s.current)
    && LoopCounters(s, w)
    && LoopProgress(s, w)
  }

  /** The loop's counters agree with the activities written so far. */
  ghost predicate LoopCounters(s: LoopState, w: WindowInputs)
  {
    && s.consumed == SumDrive(s.acts)
    && (s.loopGuard > 0 ==> s.consumed <= w.totalDrive)
    && s.fuelInserted == FuelCount(s.acts)
    && s.poiIndex <= s.fuelInserted && s.poiIndex <= |w.stations| &&
       (s.poiIndex == s.fuelInserted || s.poiIndex == |w.stations|)
    && s.onDuty == CountedOnDuty(s.acts)
    && (w.fuelStopMinutes >= 0 ==> s.onDuty >= 0 && w.start <= s.current)
  }

  /**
   * What the rounds run so far imply: each round but the first few takes at
   * least a 30-minute break, so the guard stays far from its bound; a first
   * round drives something; a short trip is done in one round.
   */
  ghost predicate LoopProgress(s: LoopState, w: WindowInputs)
  {
    && 0 <= s.loopGuard
    && (w.fuelStopMinutes >= 0 ==> BreakMinutes * (s.loopGuard - s.consumed) <= s.current - w.start && s.loopGuard <= 508)
    && (s.loopGuard == 0 ==> s.acts == PickupPart(w.start, w.pickupMinutes) && s.consumed == 0 &&
                             s.current == w.start + PickupApplied(w.pickupMinutes))
    && (s.loopGuard > 0 ==> s.consumed > 0)
    && (ShortTrip(w.totalDrive, w.pickupMinutes, w.threshold) && s.loopGuard > 0 ==>
          s.loopGuard == 1 && s.consumed == w.totalDrive &&
          s.acts + DropoffPart(s.current, w.dropoffMinutes) == SingleStint(w.start, w.totalDrive, w.pickupMinutes, w.dropoffMinutes))
  }

  /** The loop invariant holds once the pickup is written. */
  lemma LoopEntry(s: LoopState, w: WindowInputs)
    requires s == LoopState(PickupPart(w.start, w.pickupMinutes), w.start + PickupApplied(w.pickupMinutes), 0, 0, 0,
                            PickupApplied(w.pickupMinutes), 0)
    ensures LoopInv(s, w)
  {
    var p := PickupPart(w.start, w.pickupMinutes);
    PickupTrace(w.start, w.totalDrive, w.threshold, w.fuelStopMinutes, w.stations, w.pickupMinutes);
    if w.pickupMinutes > 0 {
      assert p == [] + [p[0]];
      AppendOne([], p[0]);
    }
  }

  /**
   * `s'` is the state after one round from `s` with drive chunk `chunk`:
   * the chunk is the least of the driving left, the time to the 8-hour mark
   * and the time left in the window; the round's activities are appended and
   * the counters advanced by them.
   */
  ghost predicate RoundStep(s: LoopState, s': LoopState, w: WindowInputs, chunk: int)
  {
    && s.consumed < w.totalDrive && s.loopGuard < LoopGuard && s.current - w.start < MaxWindowMinutes
    && IsLeast(chunk, w.totalDrive - s.consumed, BreakAfterMinutes - s.consumed, MaxWindowMinutes - (s.current - w.start))
    && var fuel := FuelDue(w.threshold, chunk);
      && s'.acts == s.acts + RoundActs(s.current, chunk, fuel, StationFor(w.stations, s.poiIndex), w.fuelStopMinutes,
                                       s.consumed + chunk >= BreakAfterMinutes)
      && s'.current == Last(s'.acts).end
      && s'.consumed == s.consumed + chunk
      && s'.fuelInserted == s.fuelInserted + (if fuel then 1 else 0)
      && s'.poiIndex == (if fuel && s.poiIndex < |w.stations| then s.poiIndex + 1 else s.poiIndex)
      && s'.onDuty == s.onDuty + (s'.current - s.current)
      && s'.loopGuard == s.loopGuard + 1
  }

  /** The clock after a round: the chunk, the fuel stop if due and the break if due. */
  lemma RoundClock(s: LoopState, s': LoopState, w: WindowInputs, chunk: int)
    requires RoundStep(s, s', w, chunk)
    ensures s'.current - s.current == chunk + (if FuelDue(w.threshold, chunk) then w.fuelStopMinutes else 0) +
                                      (if s.consumed + chunk >= BreakAfterMinutes then BreakMinutes else 0)
  {
    var r := RoundActs(s.current, chunk, FuelDue(w.threshold, chunk), StationFor(w.stations, s.poiIndex), w.fuelStopMinutes,
                       s.consumed + chunk >= BreakAfterMinutes);
    assert Last(s'.acts) == Last(r);
  }

  /** A round keeps the trace rules and the contiguity of the clock. */
  lemma TraceStep(s: LoopState, s': LoopState, w: WindowInputs, chunk: int)
    requires LoopInv(s, w) && RoundStep(s, s', w, chunk)
    ensures RoundTrace(s'.acts, w.start, w.totalDrive, w.threshold, w.fuelStopMinutes, w.stations, w.pickupMinutes)
    ensures Chain(s'.acts, w.start, s'.current)
  {
    var fuel := FuelDue(w.threshold, chunk);
    var rest := s.consumed + chunk >= BreakAfterMinutes;
    var loc := StationFor(w.stations, s.poiIndex);
    assert loc == StationFor(w.stations, FuelCount(s.acts));
    var r := RoundActs(s.current, chunk, fuel, loc, w.fuelStopMinutes, rest);
    assert s'.acts == s.acts + r;
    RoundKeepsTrace(s.acts, w.start, s.current, w.totalDrive, w.threshold, w.fuelStopMinutes, w.stations, w.pickupMinutes,
                    chunk, fuel, rest);
    RoundChain(s.acts, w.start, s.current, chunk, fuel, loc, w.fuelStopMinutes, rest);
    assert Last(s'.acts) == Last(r);
  }

  /** A round advances the counters by what it writes. */
  lemma CountersStep(s: LoopState, s': LoopState, w: WindowInputs, chunk: int)
    requires LoopInv(s, w) && RoundStep(s, s', w, chunk)
    ensures LoopCounters(s', w)
  {
    var fuel := FuelDue(w.threshold, chunk);
    var rest := s.consumed + chunk >= BreakAfterMinutes;
    var loc := StationFor(w.stations, s.poiIndex);
    RoundCounters(s.acts, s.current, chunk, fuel, loc, w.fuelStopMinutes, rest);
    RoundClock(s, s', w, chunk);
  }

  /** A round keeps the progress facts. */
  lemma ProgressStep(s: LoopState, s': LoopState, w: WindowInputs, chunk: int)
    requires LoopInv(s, w) && RoundStep(s, s', w, chunk)
    ensures LoopProgress(s', w)
  {
    RoundClock(s, s', w, chunk);
    if ShortTrip(w.totalDrive, w.pickupMinutes, w.threshold) {
      ShortTripRound(w.start, w.totalDrive, w.pickupMinutes, w.dropoffMinutes, w.fuelStopMinutes);
    }
  }

  /** One round of the loop (drive chunk, fuel stop if due, break if due) keeps the loop invariant. */
  lemma LoopStep(s: LoopState, s': LoopState, w: WindowInputs, chunk: int)
    requires LoopInv(s, w) && RoundStep(s, s', w, chunk)
    ensures LoopInv(s', w)
  {
    TraceStep(s, s', w, chunk);
    CountersStep(s, s', w, chunk);
    ProgressStep(s, s', w, chunk);
  }

  /** The rules every window obeys, whatever closes it. */
  ghost predicate WindowRules(acts: seq<Activity>, start: int, totalDrive: int, threshold: Option<real>,
                              fuelStopMinutes: int, stations: seq<Station>, pickupMinutes: int)
  {
    && Chain(acts, start, EndTime(acts, start))
    && WellTyped(acts)
    && PickupFirst(acts, start, pickupMinutes)
    && DrivesGreedy(acts, start, totalDrive)
    && FuelAfterDrive(acts, threshold, fuelStopMinutes)
    && BreakAtEightHours(acts)
    && StationsInOrder(acts, stations)
    // the 11-hour branch is never taken, and restarts belong to the trip planner
    && (forall i :: 0 <= i < |acts| ==> acts[i].kind != LimitReached && acts[i].kind != Restart34)
    // only fuel stops and the dropoff take caller-chosen durations
    && (forall i :: 0 <= i < |acts| && acts[i].kind != FuelStop && acts[i].kind != Dropoff ==> acts[i].start <= acts[i].end)
    // nothing follows the 10-hour rest or the dropoff
    && (forall i :: 0 <= i < |acts| - 1 ==> !IsRest(acts[i].kind) && acts[i].kind != Dropoff)
  }

  /**
   * How a window ends: with the dropoff exactly when the trip's driving is
   * done and a dropoff time is set, or with the 10-hour rest once the
   * 14-hour window is spent and driving remains.
   */
  ghost predicate WindowClosing(acts: seq<Activity>, consumed: int, start: int, totalDrive: int,
                                fuelStopMinutes: int, dropoffMinutes: int)
  {
    && ((|acts| > 0 && Last(acts).kind == Dropoff) <==> (dropoffMinutes != 0 && consumed >= totalDrive))
    && (|acts| > 0 && Last(acts).kind == Dropoff ==> Duration(Last(acts)) == dropoffMinutes)
    && (|acts| > 0 && Last(acts).kind == WindowEnd ==>
          Duration(Last(acts)) == RestMinutes && Last(acts).start >= start + MaxWindowMinutes && consumed < totalDrive)
    && (fuelStopMinutes >= 0 && consumed < totalDrive ==> |acts| > 0 && Last(acts).kind == WindowEnd)
    && (totalDrive > 0 ==> |acts| > 0)
  }

  /**
   * Everything the window planner promises about its result `plan` for a
   * window that starts at `start` with `totalDrive` minutes of trip driving
   * left and `cycleUsed` minutes of the cycle already used.
   */
  ghost predicate PlannedWindow(plan: WindowPlan, start: int, totalDrive: int, cycleUsed: int, threshold: Option<real>,
                                fuelStopMinutes: int, stations: seq<Station>, pickupMinutes: int, dropoffMinutes: int)
  {
    && WindowRules(plan.activities, start, totalDrive, threshold, fuelStopMinutes, stations, pickupMinutes)
    && WindowClosing(plan.activities, plan.driveConsumed, start, totalDrive, fuelStopMinutes, dropoffMinutes)
    // driving: conserved, and capped at 8 hours in the window
    && plan.driveConsumed == SumDrive(plan.activities)
    && 0 <= plan.driveConsumed <= Max(0, totalDrive)
    && plan.driveConsumed <= BreakAfterMinutes
    && (totalDrive > 0 && PickupApplied(pickupMinutes) < MaxWindowMinutes ==> plan.driveConsumed > 0)
    && plan.fuelInserted == FuelCount(plan.activities)
    // cycle estimate: the rest does not count, the breaks do
    && plan.remainingCycleMinutes == Max(0, CycleLimitMinutes - (cycleUsed + CountedOnDuty(plan.activities)))
    && 0 <= plan.remainingCycleMinutes
    && (cycleUsed >= 0 && fuelStopMinutes >= 0 && dropoffMinutes >= 0 ==> plan.remainingCycleMinutes <= CycleLimitMinutes)
    && plan.warnings == []
    // a trip that fits in one stint is driven in one chunk
    && (ShortTrip(totalDrive, pickupMinutes, threshold) ==>
          plan.activities == SingleStint(start, totalDrive, pickupMinutes, dropoffMinutes))
  }

  /**
   * Once a window's driving has reached 8 hours, every further drive chunk
   * is empty and is followed by a 30-minute break (after its fuel stop, if
   * one is due): the break does not reset the driving counter, so the rest
   * of the window is spent in empty chunks and breaks.
   */
  lemma EmptyChunksAfterEightHours(plan: WindowPlan, start: int, totalDrive: int, cycleUsed: int,
                                   threshold: Option<real>, fuelStopMinutes: int, stations: seq<Station>,
                                   pickupMinutes: int, dropoffMinutes: int)
    requires PlannedWindow(plan, start, totalDrive, cycleUsed, threshold, fuelStopMinutes, stations,
                           pickupMinutes, dropoffMinutes)
    ensures forall i :: 0 <= i < |plan.activities| && plan.activities[i].kind == Drive &&
                        SumDrive(plan.activities[..i]) >= BreakAfterMinutes ==>
              && SumDrive(plan.activities[..i]) == BreakAfterMinutes
              && Duration(plan.activities[i]) == 0
              && BreakComesNext(plan.activities, i)
  {
    EmptyChunks(plan.activities, start, totalDrive);
  }

  lemma EmptyChunks(acts: seq<Activity>, start: int, totalDrive: int)
    requires DrivesGreedy(acts, start, totalDrive) && BreakAtEightHours(acts)
    requires forall i :: 0 <= i < |acts| && acts[i].kind != FuelStop && acts[i].kind != Dropoff ==> acts[i].start <= acts[i].end
    ensures forall i :: 0 <= i < |acts| && acts[i].kind == Drive && SumDrive(acts[..i]) >= BreakAfterMinutes ==>
              && SumDrive(acts[..i]) == BreakAfterMinutes
              && Duration(acts[i]) == 0
              && BreakComesNext(acts, i)
  {
    forall i | 0 <= i < |acts| && acts[i].kind == Drive && SumDrive(acts[..i]) >= BreakAfterMinutes
      ensures && SumDrive(acts[..i]) == BreakAfterMinutes
              && Duration(acts[i]) == 0
              && BreakComesNext(acts, i)
    {
      assert GreedyAt(acts, i, start, totalDrive) && BreakFollows(acts, i);
      SumDriveStep(acts, i);
      assert SumDrive(acts[..i + 1]) == BreakAfterMinutes;
    }
  }

  /** How the loop stopped in state `s`: at the window's end (`ended`), or with the driving done or the guard spent. */
  ghost predicate LoopExit(s: LoopState, w: WindowInputs, ended: bool)
  {
    && LoopInv(s, w)
    && 0 <= s.loopGuard <= LoopGuard
    && (ended ==> s.current - w.start >= MaxWindowMinutes && s.consumed < w.totalDrive && s.loopGuard < LoopGuard)
    && (!ended ==> s.consumed >= w.totalDrive || s.loopGuard == LoopGuard)
  }

  /** What follows the loop: the 10-hour rest if the window ended, else the dropoff if the driving is done. */
  function ClosingPart(s: LoopState, w: WindowInputs, ended: bool): (tail: seq<Activity>)
  {
    if ended then [Activity(s.current, s.current + RestMinutes, OffDuty, WindowEnd, None)]
    else if s.consumed >= w.totalDrive then DropoffPart(s.current, w.dropoffMinutes)
    else []
  }

  /** The closed window obeys the window rules, and its totals are the loop's counters. */
  lemma ExitRules(s: LoopState, w: WindowInputs, ended: bool)
    requires LoopExit(s, w, ended)
    ensures var acts := s.acts + ClosingPart(s, w, ended);
      && WindowRules(acts, w.start, w.totalDrive, w.threshold, w.fuelStopMinutes, w.stations, w.pickupMinutes)
      && SumDrive(acts) == s.consumed && FuelCount(acts) == s.fuelInserted
      && CountedOnDuty(acts) ==
           s.onDuty + (if !ended && s.consumed >= w.totalDrive && w.dropoffMinutes != 0 then w.dropoffMinutes else 0)
  {
    var tail := ClosingPart(s, w, ended);
    var acts := s.acts + tail;
    CloseWindow(s.acts, tail, w.start, w.totalDrive, w.threshold, w.fuelStopMinutes, w.stations, w.pickupMinutes);
    if tail != [] {
      assert Chain(tail, s.current, Last(tail).end) by {
        assert |tail| == 1 && tail[0].start == s.current;
      }
      ChainAppend(s.acts, tail, w.start, s.current, Last(tail).end);
      assert Last(acts) == Last(tail);
    } else {
      assert acts == s.acts;
    }
  }

  /** The closed window ends as the window planner promises, and a short trip is one stint. */
  lemma ExitClosing(s: LoopState, w: WindowInputs, ended: bool)
    requires LoopExit(s, w, ended)
    ensures var acts := s.acts + ClosingPart(s, w, ended);
      && WindowClosing(acts, s.consumed, w.start, w.totalDrive, w.fuelStopMinutes, w.dropoffMinutes)
      && 0 <= s.consumed <= Max(0, w.totalDrive) && s.consumed <= BreakAfterMinutes
      && (w.totalDrive > 0 && PickupApplied(w.pickupMinutes) < MaxWindowMinutes ==> s.consumed > 0)
      && (ShortTrip(w.totalDrive, w.pickupMinutes, w.threshold) ==>
            acts == SingleStint(w.start, w.totalDrive, w.pickupMinutes, w.dropoffMinutes))
  {
    var tail := ClosingPart(s, w, ended);
    var acts := s.acts + tail;
    if tail != [] {
      assert Last(acts) == tail[0];
    } else {
      assert acts == s.acts;
    }
    if s.acts != [] {
      assert RoundShapeAt(s.acts, |s.acts| - 1);
    }
  }

  /**
   * What the window planner's result satisfies once the loop has stopped in
   * state `s`, with `acts` the closed window and `plan` the result built from
   * the loop's counters.
   */
  lemma WindowExit(s: LoopState, w: WindowInputs, ended: bool, cycleUsed: int, plan: WindowPlan)
    requires LoopExit(s, w, ended)
    requires plan.activities == s.acts + ClosingPart(s, w, ended) && plan.warnings == [] &&
             plan.driveConsumed == s.consumed && plan.fuelInserted == s.fuelInserted
    requires plan.remainingCycleMinutes == Max(0, CycleLimitMinutes - (cycleUsed + (s.onDuty +
               (if !ended && s.consumed >= w.totalDrive && w.dropoffMinutes != 0 then w.dropoffMinutes else 0))))
    ensures PlannedWindow(plan, w.start, w.totalDrive, cycleUsed, w.threshold, w.fuelStopMinutes, w.stations,
                          w.pickupMinutes, w.dropoffMinutes)
  {
    ExitRules(s, w, ended);
    ExitClosing(s, w, ended);
  }

  /**
   * The second half of a round: the drive chunk, then a fuel stop when the
   * chunk reached the heuristic (carrying the next unused station, if any),
   * then a 30-minute break once driving has reached 8 hours.
   */
  method DriveChunk(acts: seq<Activity>, current: int, chunk: int, drivingElapsed: int, threshold: Option<real>,
                    fuelStopMinutes: int, stations: seq<Station>, poiIndex: nat)
    returns (acts': seq<Activity>, current': int, poiIndex': nat, fuelAdded: nat, onDutyAdded: int)
    ensures var fuel := FuelDue(threshold, chunk);
      && acts' == acts + RoundActs(current, chunk, fuel, StationFor(stations, poiIndex), fuelStopMinutes,
                                   drivingElapsed + chunk >= BreakAfterMinutes)
      && current' == Last(acts').end
      && poiIndex' == (if fuel && poiIndex < |stations| then poiIndex + 1 else poiIndex)
      && fuelAdded == (if fuel then 1 else 0)
      && onDutyAdded == current' - current
  {
    acts' := acts + [Activity(current, current + chunk, Driving, Drive, None)];
    current' := current + chunk;
    var elapsed := drivingElapsed + chunk;
    onDutyAdded := chunk;
    poiIndex' := poiIndex;
    fuelAdded := 0;

    if FuelDue(threshold, chunk) {
      var location: Option<Station> := None;
      if |stations| > 0 && poiIndex < |stations| {
        location := Some(stations[poiIndex]);
        poiIndex' := poiIndex + 1;
      }
      acts' := acts' + [Activity(current', current' + fuelStopMinutes, OnDuty, FuelStop, location)];
      current' := current' + fuelStopMinutes;
      onDutyAdded := onDutyAdded + fuelStopMinutes;
      fuelAdded := 1;
    }

    if elapsed >= BreakAfterMinutes {
      acts' := acts' + [Activity(current', current' + BreakMinutes, OffDuty, Break, None)];
      current' := current' + BreakMinutes;
      onDutyAdded := onDutyAdded + BreakMinutes;
    }
  }

  /**
   * The window loop, entered in state `entry` (the pickup written, nothing
   * driven). It runs rounds until the trip's driving is done, the 14-hour
   * window is spent or the guard runs out. `exit` is the state at the top of
   * the last round; `ended` says the loop stopped at the window's end, in
   * which case the 10-hour rest follows `exit.acts` in `acts`.
   */
  method WindowRounds(w: WindowInputs, entry: LoopState) returns (exit: LoopState, ended: bool, acts: seq<Activity>, current: int)
    requires entry == LoopState(PickupPart(w.start, w.pickupMinutes), w.start + PickupApplied(w.pickupMinutes), 0, 0, 0,
                                PickupApplied(w.pickupMinutes), 0)
    ensures LoopExit(exit, w, ended)
    ensures acts == exit.acts + (if ended then [Activity(exit.current, exit.current + RestMinutes, OffDuty, WindowEnd, None)] else [])
    ensures current == if ended then exit.current + RestMinutes else exit.current
  {
    acts := entry.acts;
    current := entry.current;
    var windowStart := w.start;
    var drivingElapsed := 0;
    var onDuty := entry.onDuty;
    var remaining := w.totalDrive;
    var fuelInserted: nat := 0;
    var poiIndex: nat := 0;
    var loopGuard := 0;
    var consumed := 0;
    LoopEntry(entry, w);
    exit := entry;
    ended := false;

    while remaining > 0 && loopGuard < LoopGuard
      invariant 0 <= loopGuard <= LoopGuard
      invariant drivingElapsed == consumed && remaining == w.totalDrive - consumed && !ended
      invariant exit == LoopState(acts, current, consumed, fuelInserted, poiIndex, onDuty, loopGuard)
      invariant LoopInv(exit, w)
    {
      loopGuard := loopGuard + 1;

      var windowLeft := MaxWindowMinutes - (current - windowStart);
      if windowLeft <= 0 {
        ended := true;
        acts := acts + [Activity(current, current + RestMinutes, OffDuty, WindowEnd, None)];
        current := current + RestMinutes;
        break;
      }

      var allowedBy11 := MaxDrivingMinutes - drivingElapsed;
      if allowedBy11 <= 0 {
        // driving never passes the 8-hour mark, so the 11-hour limit is never the binding one
        assert false;
        acts := acts + [Activity(current, current + RestMinutes, OffDuty, LimitReached, None)];
        current := current + RestMinutes;
        break;
      }

      var maxChunk := Min(remaining, Min(allowedBy11, Max(0, windowLeft)));
      if maxChunk <= 0 {
        assert false;
        break;
      }

      var untilBreak := BreakAfterMinutes - drivingElapsed;
      var chunk := if untilBreak < maxChunk then untilBreak else maxChunk;

      var fuelAdded, onDutyAdded;
      acts, current, poiIndex, fuelAdded, onDutyAdded :=
        DriveChunk(acts, current, chunk, drivingElapsed, w.threshold, w.fuelStopMinutes, w.stations, poiIndex);
      drivingElapsed := drivingElapsed + chunk;
      onDuty := onDuty + onDutyAdded;
      remaining := remaining - chunk;
      consumed := consumed + chunk;
      fuelInserted := fuelInserted + fuelAdded;

      var next := LoopState(acts, current, consumed, fuelInserted, poiIndex, onDuty, loopGuard);
      LoopStep(exit, next, w, chunk);
      exit := next;
    }
  }

  /**
   * Plans one duty window starting at minute `start` for `totalDrive` minutes
   * of trip driving. `cycleUsed` is the cycle time already used, in minutes.
   */
  method PlanWindow(start: int, totalDrive: int, cycleUsed: int, distance: Option<real>, fuelIntervalMiles: int,
                    fuelStopMinutes: int, pickupMinutes: int, dropoffMinutes: int, stations: seq<Station>)
    returns (plan: WindowPlan)
    ensures PlannedWindow(plan, start, totalDrive, cycleUsed, FuelScheduleMinutes(distance, fuelIntervalMiles, totalDrive),
                          fuelStopMinutes, stations, pickupMinutes, dropoffMinutes)
  {
    var acts: seq<Activity> := [];
    var warnings: seq<string> := [];
    var current := start;
    var onDuty := 0;

    if pickupMinutes > 0 {
      acts := acts + [Activity(current, current + pickupMinutes, OnDuty, Pickup, None)];
      current := current + pickupMinutes;
      onDuty := onDuty + pickupMinutes;
    }

    var threshold := FuelScheduleMinutes(distance, fuelIntervalMiles, totalDrive);
    var w := WindowInputs(start, totalDrive, threshold, fuelStopMinutes, stations, pickupMinutes, dropoffMinutes);
    var exit, ended;
    exit, ended, acts, current := WindowRounds(w, LoopState(acts, current, 0, 0, 0, onDuty, 0));
    onDuty := exit.onDuty;

    if dropoffMinutes != 0 && totalDrive - exit.consumed <= 0 {
      acts := acts + [Activity(current, current + dropoffMinutes, OnDuty, Dropoff, None)];
      current := current + dropoffMinutes;
      onDuty := onDuty + dropoffMinutes;
    }

    var remainingCycle := Max(0, CycleLimitMinutes - (cycleUsed + onDuty));
    plan := WindowPlan(acts, warnings, remainingCycle, exit.consumed, exit.fuelInserted);
    assert acts == exit.acts + ClosingPart(exit, w, ended);
    WindowExit(exit, w, ended, cycleUsed, plan);
  }

  /**
   * A two-hour trip with an hour for pickup and an hour for dropoff fits in
   * one stint: pickup, one drive chunk, dropoff.
   */
  method TwoHourTrip(start: int) returns (plan: WindowPlan)
    ensures plan.activities == [Activity(start, start + 60, OnDuty, Pickup, None),
                                Activity(start + 60, start + 180, Driving, Drive, None),
                                Activity(start + 180, start + 240, OnDuty, Dropoff, None)]
    ensures plan.driveConsumed == 120 && plan.fuelInserted == 0
    ensures plan.remainingCycleMinutes == CycleLimitMinutes - 240
  {
    plan := PlanWindow(start, 120, 0, None, 1000, 60, 60, 60, []);
    var p := Activity(start, start + 60, OnDuty, Pickup, None);
    var d := Activity(start + 60, start + 180, Driving, Drive, None);
    var o := Activity(start + 180, start + 240, OnDuty, Dropoff, None);
    assert plan.activities == [p] + [d] + [o];
    AppendOne([], p);
    assert [] + [p] == [p];
    AppendOne([p], d);
    AppendOne([p] + [d], o);
  }
}
