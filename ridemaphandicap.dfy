/**
 * RideMapHandicap.ts: a course described by sampled (distance, elevation)
 * pairs, with a binary search for the sample just below a distance, linear
 * interpolation between samples, and the power transform that normalises a
 * rider's watts by their handicap.
 */
module HandicapMaps {
  import opened Common
  import opened RideMaps

  /** The arrays of a ServerMapDescription. */
  datatype MapDescription = MapDescription(distances: seq<real>, elevations: seq<real>)

  /** A constructed RideMapHandicap: its description, length and bounds. */
  datatype HandicapMap = HandicapMap(
    desc: MapDescription,
    length: real,
    minDist: real, maxDist: real,
    minElev: real, maxElev: real)

  datatype MapBounds = MapBounds(minElev: real, maxElev: real, minDist: real, maxDist: real)

  predicate StrictlyIncreasing(d: seq<real>)
  {
    forall i, j :: 0 <= i < j < |d| ==> d[i] < d[j]
  }

  /** What the constructor establishes: non-empty arrays, length and bounds. */
  predicate Valid(m: HandicapMap)
  {
    var d := m.desc.distances;
    var e := m.desc.elevations;
    |d| > 0 && |e| > 0
    && m.length == d[|d| - 1]
    && m.minDist == d[0] && m.maxDist == m.length
    && (forall i :: 0 <= i < |e| ==> m.minElev <= e[i] <= m.maxElev)
    && (exists i :: 0 <= i < |e| && e[i] == m.minElev)
    && (exists i :: 0 <= i < |e| && e[i] == m.maxElev)
  }

  /**
   * What interpolation needs and ServerMapDescription provides: one
   * elevation per distance, distances strictly increasing from the start
   * line. The source asserts (log only) that neighbouring distances differ
   * and that the interpolation fraction lies in [0, 1]; under this predicate
   * both are proved.
   */
  predicate Interpolable(desc: MapDescription)
  {
    |desc.distances| == |desc.elevations| > 0
    && StrictlyIncreasing(desc.distances)
    && desc.distances[0] <= 0.0
  }

  /**
   * The constructor: throws on an empty array, otherwise takes the length
   * from the last distance and folds the elevations into their min and max.
   */
  method NewRideMapHandicap(desc: MapDescription) returns (r: Result<HandicapMap>)
    ensures r.Failure? <==> |desc.elevations| == 0 || |desc.distances| == 0
    ensures r.Success? ==> Valid(r.value) && r.value.desc == desc
  {
    if |desc.elevations| <= 0 || |desc.distances| <= 0 {
      return Failure("Map description is bogus");
    }
    var length := desc.distances[|desc.distances| - 1];
    var minElev, maxElev := desc.elevations[0], desc.elevations[0];
    ghost var ixMin, ixMax := 0, 0;
    var i := 0;
    while i < |desc.elevations|
      invariant 0 <= i <= |desc.elevations|
      invariant forall j :: 0 <= j < i ==> minElev <= desc.elevations[j] <= maxElev
      invariant 0 <= ixMin < |desc.elevations| && desc.elevations[ixMin] == minElev
      invariant 0 <= ixMax < |desc.elevations| && desc.elevations[ixMax] == maxElev
    {
      var elev := desc.elevations[i];
      if elev < minElev { ixMin := i; }
      if elev > maxElev { ixMax := i; }
      minElev := Min(elev, minElev);
      maxElev := Max(elev, maxElev);
      i := i + 1;
    }
    r := Success(HandicapMap(desc, length, desc.distances[0], length, minElev, maxElev));
  }

  /** The unique sample index i with d[i] < target <= d[i + 1], by linear search from lo. */
  function Bracket(d: seq<real>, target: real, lo: nat): (r: nat)
    requires lo < |d| && d[lo] < target < d[|d| - 1]
    decreases |d| - lo
    ensures lo <= r && r + 1 < |d|
    ensures d[r] < target <= d[r + 1]
  {
    if target <= d[lo + 1] then lo else Bracket(d, target, lo + 1)
  }

  /** On strictly increasing distances the bracketing index is unique. */
  lemma {:induction false} BracketUnique(d: seq<real>, target: real, lo: nat, i: nat)
    requires StrictlyIncreasing(d)
    requires lo <= i && i + 1 < |d| && d[lo] < target < d[|d| - 1]
    requires d[i] < target <= d[i + 1]
    decreases i - lo
    ensures Bracket(d, target, lo) == i
  {
    if lo < i {
      assert d[lo + 1] <= d[i];
      BracketUnique(d, target, lo + 1, i);
    }
  }

  /**
   * _indexBelowMeters: 0 at or before the first sample, the last index at or
   * beyond the last one, and otherwise the binary-searched index whose
   * sample lies strictly below the target with the next one at or above it.
   * The search needs no ordering of the distances to terminate.
   */
  method IndexBelowMeters(d: seq<real>, targetMeters: real) returns (ix: nat)
    requires |d| > 0
    ensures ix < |d|
    ensures targetMeters <= d[0] ==> ix == 0
    ensures d[0] < targetMeters && d[|d| - 1] <= targetMeters ==> ix == |d| - 1
    ensures d[0] < targetMeters < d[|d| - 1] ==> ix + 1 < |d| && d[ix] < targetMeters <= d[ix + 1]
    ensures StrictlyIncreasing(d) && d[0] < targetMeters < d[|d| - 1] ==> ix == Bracket(d, targetMeters, 0)
  {
    if targetMeters <= d[0] {
      return 0;
    }
    if targetMeters >= d[|d| - 1] {
      return |d| - 1;
    }
    var ixLow, ixHigh := 0, |d| - 1;
    while true
      invariant 0 <= ixLow < ixHigh < |d|
      invariant d[ixLow] < targetMeters <= d[ixHigh]
      decreases ixHigh - ixLow
    {
      var ixTest := (ixLow + ixHigh) / 2;
      var meters := d[ixTest];
      if meters >= targetMeters {
        ixHigh := ixTest;
      } else {
        if ixTest >= ixHigh - 1 {
          ix := ixTest;
          if StrictlyIncreasing(d) {
            BracketUnique(d, targetMeters, 0, ix);
          }
          return;
        }
        ixLow := ixTest;
      }
    }
  }

  /**
   * getElevationAtDistance: the last elevation at or past the end, the
   * first at or before the start line, and in between the linear
   * interpolation of the two samples around the distance. It never leaves
   * the bounds the constructor computed.
   */
  function ElevationAtDistance(m: HandicapMap, meters: real): (r: real)
    requires Valid(m) && Interpolable(m.desc)
    ensures meters >= m.length ==> r == m.desc.elevations[|m.desc.elevations| - 1]
    ensures meters < m.length && meters <= 0.0 ==> r == m.desc.elevations[0]
    ensures m.minElev <= r <= m.maxElev
  {
    var d := m.desc.distances;
    var e := m.desc.elevations;
    if meters >= m.length then
      e[|e| - 1]
    else if meters <= 0.0 then
      e[0]
    else
      var ixLeft := Bracket(d, meters, 0);
      Interpolate(d[ixLeft], d[ixLeft + 1], e[ixLeft], e[ixLeft + 1], meters, m.minElev, m.maxElev)
  }

  /** The linear interpolation between two samples, at a distance between them. */
  function Interpolate(metersLeft: real, metersRight: real, elevLeft: real, elevRight: real,
                       meters: real, lo: real, hi: real): (r: real)
    requires metersLeft < meters <= metersRight
    requires lo <= elevLeft <= hi && lo <= elevRight <= hi
    ensures lo <= r <= hi
    ensures meters == metersRight ==> r == elevRight
  {
    var pct := (meters - metersLeft) / (metersRight - metersLeft);
    FractionInUnit(meters - metersLeft, metersRight - metersLeft);
    InterpolationBetween(pct, elevLeft, elevRight, lo, hi);
    pct * elevRight + (1.0 - pct) * elevLeft
  }

  /** Interpolation reproduces every sample that lies strictly inside the course. */
  lemma {:induction false} ElevationAtSample(m: HandicapMap, i: nat)
    requires Valid(m) && Interpolable(m.desc)
    requires i < |m.desc.distances| && 0.0 < m.desc.distances[i] < m.length
    ensures ElevationAtDistance(m, m.desc.distances[i]) == m.desc.elevations[i]
  {
    var d := m.desc.distances;
    var e := m.desc.elevations;
    assert d[0] <= 0.0 < d[i];
    assert i > 0;
    assert d[i] < d[|d| - 1];
    assert d[i - 1] < d[i];
    BracketUnique(d, d[i], 0, i - 1);
  }

  /** getPowerTransform: watts scaled so that riding at one's handicap reads as 300 W. */
  function PowerTransform(power: real, handicap: real): (r: real)
    requires handicap != 0.0
    ensures power == handicap ==> r == DefaultHandicapPower
    ensures handicap == DefaultHandicapPower ==> r == power
    ensures handicap > 0.0 ==> (r >= DefaultHandicapPower <==> power >= handicap)
  {
    assert handicap == DefaultHandicapPower ==> power / handicap == power / 300.0;
    DefaultHandicapPower * (power / handicap)
  }

  /** getBounds: the box every sample of the description lies in. */
  function GetBounds(m: HandicapMap): (r: MapBounds)
    requires Valid(m)
    ensures forall i :: 0 <= i < |m.desc.elevations| ==> r.minElev <= m.desc.elevations[i] <= r.maxElev
    ensures r.minElev in m.desc.elevations && r.maxElev in m.desc.elevations
    ensures r.minDist == m.desc.distances[0] && r.maxDist == m.length
  {
    MapBounds(m.minElev, m.maxElev, m.minDist, m.maxDist)
  }

  /** The map as the physics sees it: its profile, its length and the handicap transform. */
  function AsRideMap(m: HandicapMap): (r: RideMap)
    requires Valid(m) && Interpolable(m.desc)
    ensures r.length == m.length && r.transform == HandicapNormalised
    ensures forall x :: m.minElev <= r.elevation(x) <= m.maxElev
  {
    RideMap(x => ElevationAtDistance(m, x), m.length, HandicapNormalised)
  }
}
