/**
 * RideMap.ts: the shared behaviour of every course (slope by central
 * difference, the hill-extent scan) and the closed-form IntoAHillMap.
 *
 * A course is a value: its elevation profile (a total function of the
 * distance), its length, and which power transform its getPowerTransform
 * applies. PureCosineMap uses sin and cos and is not part of this model.
 */
module RideMaps {
  import opened Common

  /** What getPowerTransform does to a rider's watts on this course. */
  datatype PowerTransform = Unchanged | HandicapNormalised

  datatype RideMap = RideMap(elevation: real -> real, length: real, transform: PowerTransform)

  datatype HillStats = HillStats(startDist: real, endDist: real, startElev: real, endElev: real)

  /** getSlopeAtDistance: central difference over one metre either side. */
  function SlopeAtDistance(course: RideMap, meters: real): real
  {
    (course.elevation(meters + 1.0) - course.elevation(meters - 1.0)) / 2.0
  }

  /** On a stretch where the profile is a straight line, the slope is that line's gradient. */
  lemma SlopeOfStraightStretch(course: RideMap, meters: real, grade: real, base: real)
    requires course.elevation(meters + 1.0) == grade * (meters + 1.0) + base
    requires course.elevation(meters - 1.0) == grade * (meters - 1.0) + base
    ensures SlopeAtDistance(course, meters) == grade
  {
  }

  // ---------------------------------------------------------------------
  // getHillStatsAtDistance: from the 10 m grid point just past `meters`,
  // walk back while the profile keeps climbing (for a positive slope) or
  // falling (negative), then forward likewise, inside [0, length).

  const HillStep: real := 10.0

  /** The grid point the scan starts from: step * floor((meters + step) / step). */
  function HillAnchor(meters: real): real
  {
    HillStep * Floor((meters + HillStep) / HillStep)
  }

  function BackPoint(anchor: real, k: nat): real { anchor - HillStep * k as real }
  function FwdPoint(anchor: real, k: nat): real { anchor + HillStep * k as real }

  /** The backward scan accepts its k-th point (k >= 1). */
  predicate BackAccepts(e: real -> real, anchor: real, slope: real, k: nat)
    requires k >= 1
  {
    BackPoint(anchor, k) >= 0.0
    && Opposes(e(BackPoint(anchor, k)) - e(BackPoint(anchor, k - 1)), slope)
  }

  /** `delta * slope <= 0`, by the sign of the slope. */
  predicate Opposes(delta: real, slope: real)
  {
    if slope > 0.0 then delta <= 0.0 else if slope < 0.0 then delta >= 0.0 else true
  }

  /** `delta * slope >= 0`, by the sign of the slope. */
  predicate Follows(delta: real, slope: real)
  {
    if slope > 0.0 then delta >= 0.0 else if slope < 0.0 then delta <= 0.0 else true
  }

  /** The sign test is the source's product test. */
  lemma FollowsIsProduct(delta: real, slope: real)
    ensures Follows(delta, slope) <==> delta * slope >= 0.0
  {
    if slope > 0.0 {
      if delta < 0.0 { MulPos(-delta, slope); } else { MulNonneg(delta, slope); }
    } else if slope < 0.0 {
      if delta > 0.0 { MulPos(delta, -slope); } else { MulNonneg(-delta, -slope); }
    }
  }

  /** The sign test is the source's product test. */
  lemma OpposesIsProduct(delta: real, slope: real)
    ensures Opposes(delta, slope) <==> delta * slope <= 0.0
  {
    if slope > 0.0 {
      if delta > 0.0 { MulPos(delta, slope); } else { MulNonneg(-delta, slope); }
    } else if slope < 0.0 {
      if delta < 0.0 { MulPos(-delta, -slope); } else { MulNonneg(delta, -slope); }
    }
  }

  /** The forward scan accepts its k-th point (k >= 0; point 0 is the anchor itself). */
  predicate FwdAccepts(e: real -> real, anchor: real, length: real, slope: real, k: nat)
  {
    FwdPoint(anchor, k) < length
    && Follows(e(FwdPoint(anchor, k)) - e(if k == 0 then anchor else FwdPoint(anchor, k - 1)), slope)
  }

  /** How many points the backward scan accepts, given that it has accepted k. */
  function BackCount(e: real -> real, anchor: real, slope: real, k: nat): (r: nat)
    decreases (anchor / HillStep).Floor - k
    ensures k <= r
    ensures forall j :: k < j <= r ==> BackAccepts(e, anchor, slope, j)
    ensures !BackAccepts(e, anchor, slope, r + 1)
  {
    if BackAccepts(e, anchor, slope, k + 1) then BackCount(e, anchor, slope, k + 1) else k
  }

  /** How many points the forward scan accepts, given that it has accepted k. */
  function FwdCount(e: real -> real, anchor: real, length: real, slope: real, k: nat): (r: nat)
    decreases ((length - anchor) / HillStep).Floor + 1 - k
    ensures k <= r
    ensures forall j :: k <= j < r ==> FwdAccepts(e, anchor, length, slope, j)
    ensures !FwdAccepts(e, anchor, length, slope, r)
  {
    if FwdAccepts(e, anchor, length, slope, k) then FwdCount(e, anchor, length, slope, k + 1) else k
  }

  /** The hill's start: the last point the backward scan accepted. */
  function HillStart(course: RideMap, meters: real): real
  {
    var a := HillAnchor(meters);
    BackPoint(a, BackCount(course.elevation, a, SlopeAtDistance(course, meters), 0))
  }

  /** The hill's end: the last point the forward scan accepted, or the anchor. */
  function HillEnd(course: RideMap, meters: real): real
  {
    var a := HillAnchor(meters);
    var f := FwdCount(course.elevation, a, course.length, SlopeAtDistance(course, meters), 0);
    if f == 0 then a else FwdPoint(a, f - 1)
  }

  /**
   * The backward half of getHillStatsAtDistance: from the anchor, step back
   * 10 m at a time while the point is on the course and the profile keeps
   * the slope's direction (seen backwards); returns the last point accepted.
   */
  method ScanHillStart(course: RideMap, slope: real, startPointMeters: real) returns (startDist: real, startElev: real)
    ensures startDist == BackPoint(startPointMeters, BackCount(course.elevation, startPointMeters, slope, 0))
    ensures startElev == course.elevation(startDist)
  {
    ghost var e := course.elevation;
    startDist, startElev := startPointMeters, course.elevation(startPointMeters);
    var lastElev := startElev;
    var checkMeters := startPointMeters - HillStep;
    ghost var back: nat := 0;
    ghost var total := BackCount(e, startPointMeters, slope, 0);
    while checkMeters >= 0.0
      invariant checkMeters == BackPoint(startPointMeters, back + 1)
      invariant startDist == BackPoint(startPointMeters, back)
      invariant lastElev == e(startDist) && startElev == lastElev
      invariant total == BackCount(e, startPointMeters, slope, back)
      decreases total - back
    {
      var elevAtCheck := course.elevation(checkMeters);
      var deltaSinceLast := elevAtCheck - lastElev;
      OpposesIsProduct(deltaSinceLast, slope);
      assert BackAccepts(e, startPointMeters, slope, back + 1) <==> Opposes(deltaSinceLast, slope);
      if deltaSinceLast * slope <= 0.0 {
        assert BackCount(e, startPointMeters, slope, back) == BackCount(e, startPointMeters, slope, back + 1);
        startDist := checkMeters;
        startElev := elevAtCheck;
      } else {
        break;
      }
      lastElev := elevAtCheck;
      checkMeters := checkMeters - HillStep;
      back := back + 1;
    }
  }

  /**
   * The forward half: from the anchor itself, step forward 10 m at a time
   * while the point is before the end of the course and the profile keeps
   * the slope's direction; returns the last point accepted (the anchor if none).
   */
  method ScanHillEnd(course: RideMap, slope: real, startPointMeters: real) returns (endDist: real, endElev: real)
    ensures var f := FwdCount(course.elevation, startPointMeters, course.length, slope, 0);
      endDist == if f == 0 then startPointMeters else FwdPoint(startPointMeters, f - 1)
    ensures endElev == course.elevation(endDist)
  {
    ghost var e := course.elevation;
    endDist, endElev := startPointMeters, course.elevation(startPointMeters);
    var lastElev := endElev;
    var checkMeters := startPointMeters;
    ghost var fwd: nat := 0;
    while checkMeters < course.length
      invariant checkMeters == FwdPoint(startPointMeters, fwd)
      invariant endDist == if fwd == 0 then startPointMeters else FwdPoint(startPointMeters, fwd - 1)
      invariant lastElev == e(endDist) && endElev == lastElev
      invariant FwdCount(e, startPointMeters, course.length, slope, 0) == FwdCount(e, startPointMeters, course.length, slope, fwd)
      decreases ((course.length - startPointMeters) / HillStep).Floor + 1 - fwd
    {
      var elevAtCheck := course.elevation(checkMeters);
      var deltaSinceLast := elevAtCheck - lastElev;
      FollowsIsProduct(deltaSinceLast, slope);
      assert FwdAccepts(e, startPointMeters, course.length, slope, fwd) <==> Follows(deltaSinceLast, slope);
      if deltaSinceLast * slope >= 0.0 {
        assert FwdCount(e, startPointMeters, course.length, slope, fwd) == FwdCount(e, startPointMeters, course.length, slope, fwd + 1);
        endDist := checkMeters;
        endElev := elevAtCheck;
      } else {
        break;
      }
      lastElev := elevAtCheck;
      checkMeters := checkMeters + HillStep;
      fwd := fwd + 1;
    }
  }

  /**
   * getHillStatsAtDistance. The result spans from the point where the
   * backward scan stopped to the point where the forward scan stopped,
   * with the elevations there, and is null when the two coincide.
   */
  method GetHillStatsAtDistance(course: RideMap, meters: real) returns (r: Option<HillStats>)
    ensures r.Some? <==> HillStart(course, meters) != HillEnd(course, meters)
    ensures r.Some? ==> r.value == HillStats(HillStart(course, meters), HillEnd(course, meters),
                                             course.elevation(HillStart(course, meters)),
                                             course.elevation(HillEnd(course, meters)))
    ensures r.Some? ==> r.value.startDist < r.value.endDist
  {
    var slope := SlopeAtDistance(course, meters);
    var startPointMeters := HillAnchor(meters);
    var startDist, startElev := ScanHillStart(course, slope, startPointMeters);
    var endDist, endElev := ScanHillEnd(course, slope, startPointMeters);
    HillBracketsAnchor(course, meters);
    if startDist != endDist {
      r := Some(HillStats(startDist, endDist, startElev, endElev));
    } else {
      r := None;
    }
  }

  /** The scan never leaves the grid it started from: both ends lie on either side of the anchor. */
  lemma {:induction false} HillBracketsAnchor(course: RideMap, meters: real)
    ensures HillStart(course, meters) <= HillAnchor(meters) <= HillEnd(course, meters)
    ensures HillStart(course, meters) < HillAnchor(meters) ==> 0.0 <= HillStart(course, meters)
    ensures HillAnchor(meters) < HillEnd(course, meters) ==> HillEnd(course, meters) < course.length
  {
    var a := HillAnchor(meters);
    var s := SlopeAtDistance(course, meters);
    var b := BackCount(course.elevation, a, s, 0);
    var f := FwdCount(course.elevation, a, course.length, s, 0);
    if b > 0 { assert BackAccepts(course.elevation, a, s, b); }
    if f > 1 { assert FwdAccepts(course.elevation, a, course.length, s, f - 1); }
  }

  // ---------------------------------------------------------------------
  // IntoAHillMap: a parabolic run-in for 50 m, then a steady 5% grade.

  function IntoAHillElevation(meters: real): real
  {
    if meters < 50.0 then (meters * meters) / 2000.0 else (meters - 50.0) * 0.05 + 1.25
  }

  function IntoAHillMap(length: real): (m: RideMap)
    ensures m.length == length
  {
    RideMap(IntoAHillElevation, length, Unchanged)
  }

  /** The two pieces meet, and the profile never descends on the course. */
  lemma IntoAHillShape(length: real, x: real, y: real)
    requires 0.0 <= x <= y
    ensures IntoAHillMap(length).length == length
    ensures IntoAHillMap(length).elevation(50.0) == 1.25
    ensures IntoAHillMap(length).elevation(x) <= IntoAHillMap(length).elevation(y)
  {
    if y < 50.0 {
      assert x * x <= y * y by {
        assert x * x <= x * y;
        assert x * y <= y * y;
      }
    } else if x < 50.0 {
      assert x * x <= 2500.0 by { assert x * x <= x * 50.0; }
    }
  }

  /** Past 51 m the slope reads exactly the 5% grade. */
  lemma IntoAHillGrade(length: real, meters: real)
    requires meters >= 51.0
    ensures SlopeAtDistance(IntoAHillMap(length), meters) == 0.05
  {
    SlopeOfStraightStretch(IntoAHillMap(length), meters, 0.05, -1.25);
  }
}
