/**
 * The two geometric helpers of the planner: thinning a decoded route to
 * points roughly every N kilometres, and the padded bounding box of two
 * points that the station search queries.
 *
 * The sampler's distance (an equirectangular estimate with a cosine and a
 * square root) is a parameter `dist`: what the sampler keeps depends on it
 * only through the running sums compared with the sample distance.
 */
module RouteGeometry {
  import opened Activities

  datatype GeoPoint = GeoPoint(lat: real, lng: real)

  // ---------------------------------------------------------------- sampling

  /**
   * The indices, from `i` on, at which the running distance since the last
   * kept point reaches `limit`; `last` is the point before index `i` and
   * `acc` the distance run up since the last kept point.
   */
  function PicksFrom(points: seq<GeoPoint>, i: nat, last: GeoPoint, acc: real, limit: real,
                     dist: (GeoPoint, GeoPoint) -> real): (picks: seq<nat>)
    decreases |points| - i
  {
    if i >= |points| then []
    else
      var a := acc + dist(last, points[i]);
      if a >= limit then [i] + PicksFrom(points, i + 1, points[i], 0.0, limit, dist)
      else PicksFrom(points, i + 1, points[i], a, limit, dist)
  }

  /** The points at the given indices, in order. */
  function Select(points: seq<GeoPoint>, picks: seq<nat>): (s: seq<GeoPoint>)
    requires forall k :: 0 <= k < |picks| ==> picks[k] < |points|
  {
    if picks == [] then [] else Select(points, picks[..|picks| - 1]) + [points[Last(picks)]]
  }

  /**
   * The indices the sampler keeps: the first point, every point at which the
   * running distance reaches the sample distance (the sum then restarts),
   * and the last point unless the last kept point already equals it.
   */
  function RoutePicks(points: seq<GeoPoint>, limit: real, dist: (GeoPoint, GeoPoint) -> real): (r: seq<nat>)
  {
    if points == [] then []
    else
      var picks := [0] + PicksFrom(points, 1, points[0], 0.0, limit, dist);
      PicksInRange(points, 1, points[0], 0.0, limit, dist);
      if points[Last(picks)] != Last(points) then picks + [|points| - 1] else picks
  }

  /** `picks` is a strictly increasing list of indices into `points`. */
  ghost predicate Increasing(picks: seq<nat>, n: int)
  {
    (forall k :: 0 <= k < |picks| ==> picks[k] < n) &&
    (forall k :: 0 < k < |picks| ==> picks[k - 1] < picks[k])
  }

  lemma {:induction false} PicksInRange(points: seq<GeoPoint>, i: nat, last: GeoPoint, acc: real, limit: real,
                                        dist: (GeoPoint, GeoPoint) -> real)
    ensures var p := PicksFrom(points, i, last, acc, limit, dist);
      Increasing(p, |points|) && (forall k :: 0 <= k < |p| ==> i <= p[k])
    decreases |points| - i
  {
    if i < |points| {
      var a := acc + dist(last, points[i]);
      if a >= limit {
        PicksInRange(points, i + 1, points[i], 0.0, limit, dist);
      } else {
        PicksInRange(points, i + 1, points[i], a, limit, dist);
      }
    }
  }

  /** One step of the walk: the point at `i` is kept, or its distance is added to the running sum. */
  lemma PicksStep(points: seq<GeoPoint>, i: nat, last: GeoPoint, acc: real, limit: real,
                  dist: (GeoPoint, GeoPoint) -> real, picks: seq<nat>)
    requires i < |points|
    ensures var a := acc + dist(last, points[i]);
      picks + PicksFrom(points, i, last, acc, limit, dist) ==
        (if a >= limit then picks + [i] else picks) + PicksFrom(points, i + 1, points[i], if a >= limit then 0.0 else a, limit, dist)
  {
    var a := acc + dist(last, points[i]);
    if a >= limit {
      assert picks + ([i] + PicksFrom(points, i + 1, points[i], 0.0, limit, dist))
          == (picks + [i]) + PicksFrom(points, i + 1, points[i], 0.0, limit, dist);
    }
  }

  /** What the sampler returns, as a function of its inputs. */
  function RouteSample(points: seq<GeoPoint>, limit: real, dist: (GeoPoint, GeoPoint) -> real): (s: seq<GeoPoint>)
  {
    RoutePicksIncreasing(points, limit, dist);
    Select(points, RoutePicks(points, limit, dist))
  }

  /**
   * The kept indices are strictly increasing and start at 0; the last kept
   * point equals the route's last point (by value, so it may be an earlier
   * index holding the same coordinates).
   */
  lemma RoutePicksIncreasing(points: seq<GeoPoint>, limit: real, dist: (GeoPoint, GeoPoint) -> real)
    ensures var picks := RoutePicks(points, limit, dist);
      && Increasing(picks, |points|)
      && (points == [] <==> picks == [])
      && (points != [] ==> picks[0] == 0 && points[Last(picks)] == Last(points))
  {
    if points != [] {
      var p := PicksFrom(points, 1, points[0], 0.0, limit, dist);
      PicksInRange(points, 1, points[0], 0.0, limit, dist);
      var picks := [0] + p;
      assert Increasing(picks, |points|) by {
        forall k | 0 < k < |picks| ensures picks[k - 1] < picks[k] {
          if k > 1 { assert picks[k - 1] == p[k - 2] && picks[k] == p[k - 1]; }
        }
      }
      if points[Last(picks)] != Last(points) {
        assert Last(picks) < |points| - 1;
        var full := picks + [|points| - 1];
        assert Increasing(full, |points|) by {
          forall k | 0 < k < |full| ensures full[k - 1] < full[k] {
            if k < |picks| { assert full[k - 1] == picks[k - 1] && full[k] == picks[k]; }
          }
        }
      }
    }
  }

  lemma SelectAppend(points: seq<GeoPoint>, picks: seq<nat>, j: nat)
    requires forall k :: 0 <= k < |picks| ==> picks[k] < |points|
    requires j < |points|
    ensures Select(points, picks + [j]) == Select(points, picks) + [points[j]]
  {
    assert (picks + [j])[..|picks|] == picks;
  }

  lemma {:induction false} SelectAt(points: seq<GeoPoint>, picks: seq<nat>)
    requires forall k :: 0 <= k < |picks| ==> picks[k] < |points|
    ensures |Select(points, picks)| == |picks|
    ensures forall k :: 0 <= k < |picks| ==> Select(points, picks)[k] == points[picks[k]]
  {
    if picks != [] {
      SelectAt(points, picks[..|picks| - 1]);
    }
  }

  /**
   * The sample is a subsequence of the route that starts with its first point
   * and ends with its last; it is empty exactly for the empty route.
   */
  lemma RouteSampleShape(points: seq<GeoPoint>, limit: real, dist: (GeoPoint, GeoPoint) -> real)
    ensures var s := RouteSample(points, limit, dist);
      var picks := RoutePicks(points, limit, dist);
      && (s == [] <==> points == [])
      && (points != [] ==> s[0] == points[0] && Last(s) == Last(points))
      && Increasing(picks, |points|) && |s| == |picks|
      && (forall k :: 0 <= k < |s| ==> s[k] == points[picks[k]])
      && |s| <= |points|
  {
    var picks := RoutePicks(points, limit, dist);
    RoutePicksIncreasing(points, limit, dist);
    SelectAt(points, picks);
    IncreasingFits(picks, |points|);
  }

  /** A strictly increasing list of indices below `n` has at most `n` entries. */
  lemma {:induction false} IncreasingFits(picks: seq<nat>, n: int)
    requires Increasing(picks, n) && 0 <= n
    ensures |picks| <= n
    ensures |picks| > 0 ==> |picks| <= Last(picks) + 1
  {
    if picks != [] {
      var init := picks[..|picks| - 1];
      assert Increasing(init, n) by {
        forall k | 0 < k < |init| ensures init[k - 1] < init[k] {
          assert init[k - 1] == picks[k - 1] && init[k] == picks[k];
        }
      }
      IncreasingFits(init, n);
      assert Last(picks) < n;
      if init != [] {
        assert Last(init) == picks[|picks| - 2] < Last(picks);
      }
    }
  }

  /** With a non-positive sample distance and non-negative distances, every point is kept. */
  lemma {:induction false} KeepAllFrom(points: seq<GeoPoint>, i: nat, last: GeoPoint, limit: real,
                                       dist: (GeoPoint, GeoPoint) -> real)
    requires limit <= 0.0
    requires forall p, q :: dist(p, q) >= 0.0
    ensures PicksFrom(points, i, last, 0.0, limit, dist) == if i < |points| then Range(i, |points|) else []
    decreases |points| - i
  {
    if i < |points| {
      KeepAllFrom(points, i + 1, points[i], limit, dist);
    }
  }

  /** The indices `lo`, ..., `hi - 1`. */
  function Range(lo: nat, hi: nat): (r: seq<nat>)
    decreases hi - lo
  {
    if lo >= hi then [] else [lo] + Range(lo + 1, hi)
  }

  lemma {:induction false} RangeAt(lo: nat, hi: nat)
    ensures |Range(lo, hi)| == if lo <= hi then hi - lo else 0
    ensures forall k :: 0 <= k < |Range(lo, hi)| ==> Range(lo, hi)[k] == lo + k
    decreases hi - lo
  {
    if lo < hi {
      RangeAt(lo + 1, hi);
    }
  }

  lemma KeepAll(points: seq<GeoPoint>, limit: real, dist: (GeoPoint, GeoPoint) -> real)
    requires limit <= 0.0
    requires forall p, q :: dist(p, q) >= 0.0
    ensures RouteSample(points, limit, dist) == points
  {
    if points != [] {
      KeepAllFrom(points, 1, points[0], limit, dist);
      var picks := RoutePicks(points, limit, dist);
      RangeAt(1, |points|);
      assert picks == [0] + (if 1 < |points| then Range(1, |points|) else []);
      assert forall k :: 0 <= k < |picks| ==> picks[k] == k;
      RouteSampleShape(points, limit, dist);
    }
  }

  /**
   * Thins a route to points roughly every `sampleDistanceKm` kilometres:
   * walks the consecutive points adding up `dist(last, p)`, keeps a point
   * (and restarts the sum) once the sum reaches the sample distance, and
   * appends the route's last point if the last kept point is not equal to it.
   */
  method SampleRoutePoints(points: seq<GeoPoint>, sampleDistanceKm: real, dist: (GeoPoint, GeoPoint) -> real)
    returns (sampled: seq<GeoPoint>)
    ensures sampled == RouteSample(points, sampleDistanceKm, dist)
    ensures sampled == [] <==> points == []
    ensures points != [] ==> sampled[0] == points[0] && Last(sampled) == Last(points)
    ensures |sampled| <= |points|
  {
    if points == [] {
      RouteSampleShape(points, sampleDistanceKm, dist);
      return [];
    }
    sampled := [points[0]];
    var last := points[0];
    var kmAccum := 0.0;
    ghost var picks: seq<nat> := [0];
    var i: nat := 1;
    while i < |points|
      invariant 1 <= i <= |points| && last == points[i - 1]
      invariant forall k :: 0 <= k < |picks| ==> picks[k] < |points|
      invariant sampled == Select(points, picks) && picks != []
      invariant picks + PicksFrom(points, i, last, kmAccum, sampleDistanceKm, dist)
                == [0] + PicksFrom(points, 1, points[0], 0.0, sampleDistanceKm, dist)
    {
      var p := points[i];
      PicksStep(points, i, last, kmAccum, sampleDistanceKm, dist, picks);
      kmAccum := kmAccum + dist(last, p);
      if kmAccum >= sampleDistanceKm {
        SelectAppend(points, picks, i);
        picks := picks + [i];
        sampled := sampled + [p];
        kmAccum := 0.0;
      }
      last := p;
      i := i + 1;
    }
    assert picks == [0] + PicksFrom(points, 1, points[0], 0.0, sampleDistanceKm, dist);
    assert Last(sampled) == points[Last(picks)];
    if Last(sampled) != Last(points) {
      SelectAppend(points, picks, |points| - 1);
      picks := picks + [|points| - 1];
      sampled := sampled + [Last(points)];
    }
    RouteSampleShape(points, sampleDistanceKm, dist);
  }

  // ------------------------------------------------------------ bounding box

  datatype BBox = BBox(north: real, south: real, east: real, west: real)

  /** The smallest pad the search box gets on each side, in degrees. */
  const MinPadDegrees: real := 0.01

  /**
   * The search box around two points: their latitude and longitude ranges,
   * each widened on both sides by `pad` times its span, but by no less than
   * 0.01 degrees.
   */
  function BBoxFromPoints(p1: GeoPoint, p2: GeoPoint, pad: real): (b: BBox)
    // both points lie inside, at least 0.01 degrees from every edge
    ensures b.north >= p1.lat + MinPadDegrees && b.north >= p2.lat + MinPadDegrees
    ensures b.south <= p1.lat - MinPadDegrees && b.south <= p2.lat - MinPadDegrees
    ensures b.east >= p1.lng + MinPadDegrees && b.east >= p2.lng + MinPadDegrees
    ensures b.west <= p1.lng - MinPadDegrees && b.west <= p2.lng - MinPadDegrees
    // the margin is the same on both sides: the larger of 0.01 and pad times the span
    ensures var latSpan := RMax(p1.lat, p2.lat) - RMin(p1.lat, p2.lat);
      var m := b.north - RMax(p1.lat, p2.lat);
      && RMin(p1.lat, p2.lat) - b.south == m
      && m >= MinPadDegrees && m >= latSpan * pad && (m == MinPadDegrees || m == latSpan * pad)
    ensures var lngSpan := RMax(p1.lng, p2.lng) - RMin(p1.lng, p2.lng);
      var m := b.east - RMax(p1.lng, p2.lng);
      && RMin(p1.lng, p2.lng) - b.west == m
      && m >= MinPadDegrees && m >= lngSpan * pad && (m == MinPadDegrees || m == lngSpan * pad)
  {
    var latMin := RMin(p1.lat, p2.lat);
    var latMax := RMax(p1.lat, p2.lat);
    var lngMin := RMin(p1.lng, p2.lng);
    var lngMax := RMax(p1.lng, p2.lng);
    var latPad := RMax(MinPadDegrees, (latMax - latMin) * pad);
    var lngPad := RMax(MinPadDegrees, (lngMax - lngMin) * pad);
    BBox(latMax + latPad, latMin - latPad, lngMax + lngPad, lngMin - lngPad)
  }

  /** The box does not depend on the order of the two points. */
  lemma BBoxSymmetric(p1: GeoPoint, p2: GeoPoint, pad: real)
    ensures BBoxFromPoints(p1, p2, pad) == BBoxFromPoints(p2, p1, pad)
  {
  }
}
