/**
 * The activity records that the Hours-of-Service planner emits, and the
 * functions over activity sequences that its contracts are stated with.
 *
 * Time is a whole number of minutes, measured from the instant the trip
 * planner was started at. Every duration the planner adds is a whole number
 * of minutes, so nothing is lost by this.
 */
module Activities {

  datatype Option<+T> = None | Some(value: T)

  /** A fuel station as the station search returns it. */
  datatype Station = Station(lat: real, lng: real, name: Option<string>)

  /** Duty status of a log entry. */
  datatype Status = Driving | OnDuty | OffDuty

  /** The `type` field of an activity. */
  datatype Kind = Pickup | Drive | FuelStop | Break | Dropoff | WindowEnd | LimitReached | Restart34

  /** One log entry: [start, end) on the minute clock. Only fuel stops carry a location. */
  datatype Activity = Activity(start: int, end: int, status: Status, kind: Kind, location: Option<Station>)

  // Limits, in minutes.
  const MaxDrivingMinutes: int := 11 * 60
  const MaxWindowMinutes: int := 14 * 60
  const BreakAfterMinutes: int := 8 * 60
  const BreakMinutes: int := 30
  const RestMinutes: int := 10 * 60
  const CycleLimitMinutes: int := 70 * 60
  const RestartMinutes: int := 34 * 60
  const DayMinutes: int := 24 * 60

  function Min(a: int, b: int): (m: int) { if a <= b then a else b }
  function Max(a: int, b: int): (m: int) { if a <= b then b else a }
  function RMin(a: real, b: real): (m: real) { if a <= b then a else b }
  function RMax(a: real, b: real): (m: real) { if a <= b then b else a }

  /** The duty status the planner writes for each kind of activity. */
  function StatusOf(k: Kind): (s: Status)
  {
    match k
    case Drive => Driving
    case Pickup | FuelStop | Dropoff => OnDuty
    case Break | WindowEnd | LimitReached | Restart34 => OffDuty
  }

  /** Off-duty periods that end a duty window or a cycle. */
  predicate IsRest(k: Kind)
  {
    k == WindowEnd || k == LimitReached || k == Restart34
  }

  function Duration(a: Activity): (d: int) { a.end - a.start }

  function Last<T>(s: seq<T>): (x: T)
    requires |s| > 0
  {
    s[|s| - 1]
  }

  /** The clock after a sequence of activities that began at `t`. */
  function EndTime(acts: seq<Activity>, t: int): (e: int)
  {
    if acts == [] then t else Last(acts).end
  }

  /** Activity `i` starts where activity `i - 1` ended. */
  ghost predicate LinkedAt(acts: seq<Activity>, i: int)
  {
    0 < i < |acts| ==> acts[i - 1].end == acts[i].start
  }

  /** Every activity starts where the previous one ended. */
  ghost predicate Linked(acts: seq<Activity>)
  {
    forall i :: 0 < i < |acts| ==> LinkedAt(acts, i)
  }

  /** The activities cover the clock contiguously from `from` to `to`. */
  ghost predicate Chain(acts: seq<Activity>, from: int, to: int)
  {
    Linked(acts) &&
    (acts == [] ==> from == to) &&
    (acts != [] ==> acts[0].start == from && Last(acts).end == to)
  }

  /** Minutes spent driving. */
  function SumDrive(acts: seq<Activity>): (d: int)
  {
    if acts == [] then 0
    else SumDrive(acts[..|acts| - 1]) + (if Last(acts).kind == Drive then Duration(Last(acts)) else 0)
  }

  /** Minutes of all activities, whatever their status. */
  function TotalDuration(acts: seq<Activity>): (d: int)
  {
    if acts == [] then 0
    else TotalDuration(acts[..|acts| - 1]) + Duration(Last(acts))
  }

  /**
   * The minutes a window counts against the cycle: everything except the
   * 10-hour (or 34-hour) rests; the 30-minute breaks are included.
   */
  function CountedOnDuty(acts: seq<Activity>): (d: int)
  {
    if acts == [] then 0
    else CountedOnDuty(acts[..|acts| - 1]) + (if IsRest(Last(acts).kind) then 0 else Duration(Last(acts)))
  }

  function FuelCount(acts: seq<Activity>): (n: nat)
  {
    if acts == [] then 0
    else FuelCount(acts[..|acts| - 1]) + (if Last(acts).kind == FuelStop then 1 else 0)
  }

  /** The locations of the fuel stops, in order. */
  function FuelLocations(acts: seq<Activity>): (locs: seq<Option<Station>>)
  {
    if acts == [] then []
    else FuelLocations(acts[..|acts| - 1]) + (if Last(acts).kind == FuelStop then [Last(acts).location] else [])
  }

  /** What `n` fuel stops carry when stations are handed out in list order, once each. */
  function Attached(stations: seq<Station>, n: nat): (locs: seq<Option<Station>>)
  {
    if n == 0 then [] else Attached(stations, n - 1) + [if n - 1 < |stations| then Some(stations[n - 1]) else None]
  }

  /** Activity `i` carries the status of its kind, and a location only if it is a fuel stop. */
  ghost predicate TypedAt(acts: seq<Activity>, i: int)
  {
    0 <= i < |acts| ==>
      acts[i].status == StatusOf(acts[i].kind) && (acts[i].kind != FuelStop ==> acts[i].location == None)
  }

  /** Each activity carries the status of its kind, and only fuel stops carry a location. */
  ghost predicate WellTyped(acts: seq<Activity>)
  {
    forall i :: 0 <= i < |acts| ==> TypedAt(acts, i)
  }

  lemma PrefixOfAppend<T>(a: seq<T>, b: seq<T>)
    ensures (a + b)[..|a|] == a
    ensures forall i :: 0 <= i <= |a| ==> (a + b)[..i] == a[..i]
  {
    assert forall i :: 0 <= i <= |a| ==> (a + b)[..i] == a[..i] by {
      forall i | 0 <= i <= |a| ensures (a + b)[..i] == a[..i] {
        assert forall k :: 0 <= k < i ==> (a + b)[..i][k] == a[..i][k];
      }
    }
  }

  /** What one more activity adds to each running total. */
  lemma AppendOne(acts: seq<Activity>, x: Activity)
    ensures SumDrive(acts + [x]) == SumDrive(acts) + (if x.kind == Drive then Duration(x) else 0)
    ensures TotalDuration(acts + [x]) == TotalDuration(acts) + Duration(x)
    ensures CountedOnDuty(acts + [x]) == CountedOnDuty(acts) + (if IsRest(x.kind) then 0 else Duration(x))
    ensures FuelCount(acts + [x]) == FuelCount(acts) + (if x.kind == FuelStop then 1 else 0)
    ensures FuelLocations(acts + [x]) == FuelLocations(acts) + (if x.kind == FuelStop then [x.location] else [])
  {
    assert (acts + [x])[..|acts|] == acts;
  }

  /** Every running total of two runs placed end to end is the sum of theirs. */
  lemma {:induction false} AppendAll(a: seq<Activity>, b: seq<Activity>)
    ensures SumDrive(a + b) == SumDrive(a) + SumDrive(b)
    ensures TotalDuration(a + b) == TotalDuration(a) + TotalDuration(b)
    ensures CountedOnDuty(a + b) == CountedOnDuty(a) + CountedOnDuty(b)
    ensures FuelCount(a + b) == FuelCount(a) + FuelCount(b)
    ensures FuelLocations(a + b) == FuelLocations(a) + FuelLocations(b)
    decreases |b|
  {
    if b == [] {
      assert a + b == a;
    } else {
      var init := b[..|b| - 1];
      var x := Last(b);
      assert b == init + [x];
      assert a + b == (a + init) + [x];
      AppendAll(a, init);
      AppendOne(a + init, x);
      AppendOne(init, x);
    }
  }

  /** SumDrive of a prefix grows by the drive time of the next activity. */
  lemma SumDriveStep(acts: seq<Activity>, i: int)
    requires 0 <= i < |acts|
    ensures SumDrive(acts[..i + 1]) == SumDrive(acts[..i]) + (if acts[i].kind == Drive then Duration(acts[i]) else 0)
  {
    assert acts[..i + 1][..i] == acts[..i];
  }

  /** Appending to a contiguous run that ends where the new run starts. */
  lemma ChainAppend(a: seq<Activity>, b: seq<Activity>, s: int, m: int, e: int)
    requires Chain(a, s, m) && Chain(b, m, e)
    ensures Chain(a + b, s, e)
  {
    var c := a + b;
    forall i | 0 < i < |c| ensures LinkedAt(c, i) {
      if i == |a| {
        assert c[i - 1] == Last(a) && c[i] == b[0];
      } else if i < |a| {
        assert LinkedAt(a, i) && c[i - 1] == a[i - 1] && c[i] == a[i];
      } else {
        assert LinkedAt(b, i - |a|) && c[i - 1] == b[i - 1 - |a|] && c[i] == b[i - |a|];
      }
    }
  }

  /**
   * Summing the durations of a contiguous run gives the clock time it spans:
   * whatever counts all durations counts the whole elapsed time.
   */
  lemma {:induction false} TotalDurationTelescopes(acts: seq<Activity>, from: int, to: int)
    requires Chain(acts, from, to)
    ensures TotalDuration(acts) == to - from
  {
    if acts != [] {
      var init := acts[..|acts| - 1];
      if init == [] {
        assert acts == [acts[0]];
      } else {
        assert Chain(init, from, Last(init).end) by {
          forall i | 0 < i < |init| ensures LinkedAt(init, i) {
            assert LinkedAt(acts, i);
          }
        }
        TotalDurationTelescopes(init, from, Last(init).end);
        assert LinkedAt(acts, |acts| - 1);
        assert Last(init).end == Last(acts).start;
      }
    }
  }

  /** Without any rest, every minute counts against the cycle. */
  lemma {:induction false} NoRestCounted(acts: seq<Activity>)
    requires forall i :: 0 <= i < |acts| ==> !IsRest(acts[i].kind)
    ensures TotalDuration(acts) == CountedOnDuty(acts)
    decreases |acts|
  {
    if acts != [] {
      var init := acts[..|acts| - 1];
      assert forall i :: 0 <= i < |init| ==> init[i] == acts[i];
      NoRestCounted(init);
    }
  }

  /** When only the last activity may be a rest, all minutes count except that rest's. */
  lemma RestOnlyLast(acts: seq<Activity>)
    requires forall i :: 0 <= i < |acts| - 1 ==> !IsRest(acts[i].kind)
    ensures TotalDuration(acts) ==
              CountedOnDuty(acts) + (if acts != [] && IsRest(Last(acts).kind) then Duration(Last(acts)) else 0)
  {
    if acts != [] {
      var init := acts[..|acts| - 1];
      assert forall i :: 0 <= i < |init| ==> init[i] == acts[i];
      NoRestCounted(init);
    }
  }
}
