/**
 * communication.ts: the messages the server and the clients exchange and
 * the small computations around them: the race-state summary sent with
 * every message, the map description a client rebuilds its course from,
 * the interpolation over evenly spaced samples, the update a client sends
 * about its local rider, and the URL joining of the HTTP helpers.
 */
module Messages {
  import opened Common
  import opened HandicapMaps
  import opened Riders
  import opened Races

  datatype CurrentRaceState = PreRace | Racing | PostRace

  /** S2CRaceStateUpdate: the game's state and when the next one begins. */
  datatype RaceStateUpdate = RaceStateUpdate(state: CurrentRaceState, msUntilNextState: int, tmOfNextState: int)

  /** What S2CRaceStateUpdate reads of a ServerGame. */
  datatype GameClock = GameClock(lastRaceState: CurrentRaceState, scheduledStart: int)

  /** The time of next state the source sends when there is no game: 0x7fffffff. */
  const NoGameNextState: int := 0x7fff_ffff

  /**
   * The S2CRaceStateUpdate constructor. Before the race the countdown runs
   * to the scheduled start and never goes negative; once the race is on, or
   * over, both times are -1; without a game it is a countdown of 0 to a time
   * that never comes.
   */
  function RaceStateUpdateFor(tmNow: int, game: Option<GameClock>): (r: RaceStateUpdate)
    ensures game.None? ==> r == RaceStateUpdate(PreRace, 0, NoGameNextState)
    ensures game.Some? ==> r.state == game.value.lastRaceState
    ensures game.Some? && game.value.lastRaceState == PreRace ==>
      r.tmOfNextState == game.value.scheduledStart && r.msUntilNextState >= 0
      && tmNow + r.msUntilNextState == MaxInt(tmNow, game.value.scheduledStart)
    ensures game.Some? && game.value.lastRaceState != PreRace ==>
      r.msUntilNextState == -1 && r.tmOfNextState == -1
  {
    match game
    case None => RaceStateUpdate(PreRace, 0, NoGameNextState)
    case Some(g) =>
      if g.lastRaceState == PreRace then
        RaceStateUpdate(g.lastRaceState, MaxInt(0, g.scheduledStart - tmNow), g.scheduledStart)
      else
        RaceStateUpdate(g.lastRaceState, -1, -1)
  }

  // ---------------------------------------------------------------------
  // getElevationFromEvenSpacedSamples

  lemma MulLeft(a: real, b: real, c: real)
    requires a <= b && c >= 0.0
    ensures a * c <= b * c
  {
    MulNonneg(b - a, c);
  }

  lemma DivUnderBound(a: real, b: real, c: real)
    requires a < b * c && c > 0.0
    ensures a / c < b
  {
    var q := a / c;
    assert q * c == a;
    if q >= b {
      MulLeft(b, q, c);
    }
  }

  lemma QuotientTimes(a: real, c: real)
    requires c != 0.0
    ensures (a / c) * c == a
  {
  }

  /**
   * The left sample of the span a distance falls in: floor(pct * n) for
   * the fraction pct of the course, which keeps it among the first n.
   */
  function EvenLeftIndex(pctRaw: real, n: nat): (ix: nat)
    requires n >= 1 && 0.0 <= pctRaw < 1.0
    ensures ix < n
    ensures ix as real <= pctRaw * n as real < ix as real + 1.0
  {
    MulLeft(0.0, pctRaw, n as real);
    MulLeft(pctRaw, 1.0, n as real);
    (pctRaw * n as real).Floor
  }

  /** How far into the span from sample ix to sample ix + 1 the distance lies, as a fraction. */
  function EvenFraction(meters: real, lengthMeters: real, n: nat, ix: nat): (pct: real)
    requires lengthMeters > 0.0 && n >= 1
    requires ix as real <= (meters / lengthMeters) * n as real < ix as real + 1.0
    ensures 0.0 <= pct <= 1.0
    ensures meters == (ix as real / n as real) * lengthMeters ==> pct == 0.0
  {
    var distLeft := (ix as real / n as real) * lengthMeters;
    var distRight := ((ix + 1) as real / n as real) * lengthMeters;
    SpanAround(meters, lengthMeters, n, ix);
    FractionInUnit(meters - distLeft, distRight - distLeft);
    (meters - distLeft) / (distRight - distLeft)
  }

  /** The inner branch: linear interpolation between the two samples around the distance. */
  function EvenInterior(meters: real, lengthMeters: real, elevations: seq<real>): (r: real)
    requires lengthMeters > 0.0 && |elevations| >= 2
    requires 0.0 <= meters / lengthMeters < 1.0
    ensures var ix := EvenLeftIndex(meters / lengthMeters, |elevations| - 1);
      Min(elevations[ix], elevations[ix + 1]) <= r <= Max(elevations[ix], elevations[ix + 1])
  {
    var ixLeft := EvenLeftIndex(meters / lengthMeters, |elevations| - 1);
    var pct := EvenFraction(meters, lengthMeters, |elevations| - 1, ixLeft);
    var left := elevations[ixLeft];
    var right := elevations[ixLeft + 1];
    InterpolationBetween(pct, left, right, Min(left, right), Max(left, right));
    pct * right + (1.0 - pct) * left
  }

  /** The two samples at ix/n and (ix+1)/n of the course enclose the distance: the source's assertions on offset and span. */
  lemma {:induction false} SpanAround(meters: real, lengthMeters: real, n: nat, ix: nat)
    requires lengthMeters > 0.0 && n >= 1
    requires ix as real <= (meters / lengthMeters) * n as real < ix as real + 1.0
    ensures (ix as real / n as real) * lengthMeters <= meters < ((ix + 1) as real / n as real) * lengthMeters
  {
    var p := meters / lengthMeters;
    DivOfBound(ix as real, p, n as real);
    MulLeft(ix as real / n as real, p, lengthMeters);
    QuotientTimes(meters, lengthMeters);
    assert p * lengthMeters == meters;
    assert p * n as real < (ix + 1) as real;
    DivUnderBound(p * n as real, (ix + 1) as real / n as real, n as real) by {
      QuotientTimes((ix + 1) as real, n as real);
    }
    assert p * n as real / n as real == p;
    assert p < (ix + 1) as real / n as real;
    MulLeft(p, (ix + 1) as real / n as real, lengthMeters);
    assert p * lengthMeters != ((ix + 1) as real / n as real) * lengthMeters;
  }

  /**
   * getElevationFromEvenSpacedSamples as written: before the start the
   * first sample, inside the course the interpolation, and at or past the
   * end elevations[n - 1] -- the second-to-last sample, not the last.
   */
  function EvenSpacedElevationAsWritten(meters: real, lengthMeters: real, elevations: seq<real>): (r: real)
    requires lengthMeters > 0.0 && |elevations| >= 2
    ensures meters < 0.0 ==> r == elevations[0]
    ensures meters >= lengthMeters ==> r == elevations[|elevations| - 2]
  {
    var pctRaw := meters / lengthMeters;
    var n := |elevations| - 1;
    QuotientBounds(meters, lengthMeters);
    if pctRaw < 0.0 then elevations[0]
    else if pctRaw >= 1.0 then elevations[n - 1]
    else EvenInterior(meters, lengthMeters, elevations)
  }

  /** The corrected lookup: at or past the end, the last sample. */
  function EvenSpacedElevation(meters: real, lengthMeters: real, elevations: seq<real>): (r: real)
    requires lengthMeters > 0.0 && |elevations| >= 2
    ensures meters < 0.0 ==> r == elevations[0]
    ensures meters >= lengthMeters ==> r == elevations[|elevations| - 1]
  {
    var pctRaw := meters / lengthMeters;
    var n := |elevations| - 1;
    QuotientBounds(meters, lengthMeters);
    if pctRaw < 0.0 then elevations[0]
    else if pctRaw >= 1.0 then elevations[n]
    else EvenInterior(meters, lengthMeters, elevations)
  }

  /** meters / length compares with 0 and 1 as meters compares with 0 and the length. */
  lemma QuotientBounds(meters: real, lengthMeters: real)
    requires lengthMeters > 0.0
    ensures meters / lengthMeters < 0.0 <==> meters < 0.0
    ensures meters / lengthMeters >= 1.0 <==> meters >= lengthMeters
  {
    QuotientTimes(meters, lengthMeters);
    var p := meters / lengthMeters;
    if p < 0.0 {
      MulPos(-p, lengthMeters);
      assert (-p) * lengthMeters == -(p * lengthMeters);
    }
    if meters < 0.0 && p >= 0.0 { MulNonneg(p, lengthMeters); }
    if p >= 1.0 {
      MulLeft(1.0, p, lengthMeters);
      assert meters >= lengthMeters;
    }
    assert (1.0 - p) * lengthMeters == lengthMeters - p * lengthMeters;
    assert p * lengthMeters == meters;
    if meters >= lengthMeters && p < 1.0 {
      MulPos(1.0 - p, lengthMeters);
      assert false;
    }
  }

  /** The distance of sample x of n + 1 evenly spaced samples. */
  function EvenSampleDistance(x: nat, n: nat, lengthMeters: real): real
    requires n >= 1
  {
    (x as real / n as real) * lengthMeters
  }

  /** Inside the course the interpolation passes through every sample it starts a span at. */
  lemma {:induction false} EvenInteriorAtSample(lengthMeters: real, elevations: seq<real>, x: nat)
    requires lengthMeters > 0.0 && |elevations| >= 2 && x < |elevations| - 1
    ensures var meters := EvenSampleDistance(x, |elevations| - 1, lengthMeters);
      0.0 <= meters / lengthMeters < 1.0 && EvenInterior(meters, lengthMeters, elevations) == elevations[x]
  {
    var n := |elevations| - 1;
    var meters := EvenSampleDistance(x, n, lengthMeters);
    var q := x as real / n as real;
    assert meters / lengthMeters == q;
    QuotientTimes(x as real, n as real);
    assert q * n as real == x as real;
    DivUnderBound(x as real, 1.0, n as real);
    assert 0.0 <= q < 1.0 by { MulNonneg(x as real, 1.0 / n as real); }
    assert EvenLeftIndex(q, n) == x;
  }

  /** The corrected lookup returns every sample at its own distance, the last one included. */
  lemma {:induction false} EvenSpacedAtSample(lengthMeters: real, elevations: seq<real>, x: nat)
    requires lengthMeters > 0.0 && |elevations| >= 2 && x < |elevations|
    ensures EvenSpacedElevation(EvenSampleDistance(x, |elevations| - 1, lengthMeters), lengthMeters, elevations)
            == elevations[x]
  {
    var n := |elevations| - 1;
    var meters := EvenSampleDistance(x, n, lengthMeters);
    if x == n {
      assert meters == lengthMeters;
    } else {
      EvenInteriorAtSample(lengthMeters, elevations, x);
      QuotientBounds(meters, lengthMeters);
    }
  }

  /** The lookup as written agrees with every sample but the last, where it returns the one before. */
  lemma {:induction false} EvenSpacedAsWrittenAtSample(lengthMeters: real, elevations: seq<real>, x: nat)
    requires lengthMeters > 0.0 && |elevations| >= 2 && x < |elevations|
    ensures var n := |elevations| - 1;
      EvenSpacedElevationAsWritten(EvenSampleDistance(x, n, lengthMeters), lengthMeters, elevations)
      == if x < n then elevations[x] else elevations[n - 1]
  {
    var n := |elevations| - 1;
    var meters := EvenSampleDistance(x, n, lengthMeters);
    if x == n {
      assert meters == lengthMeters;
    } else {
      EvenInteriorAtSample(lengthMeters, elevations, x);
      QuotientBounds(meters, lengthMeters);
    }
  }

  /**
   * The code as written misses the last sample: at the end of a course
   * sampled as [0, 0, 10] over 100 m it reports 0 m where the last sample
   * says 10 m, while the corrected lookup reports 10 m.
   */
  lemma EndSampleMissed()
    ensures EvenSpacedElevationAsWritten(100.0, 100.0, [0.0, 0.0, 10.0]) == 0.0
    ensures EvenSpacedElevation(100.0, 100.0, [0.0, 0.0, 10.0]) == 10.0
  {
  }

  // ---------------------------------------------------------------------
  // ServerMapDescription

  /** The number of samples the server takes of a course. */
  const SampleCount: nat := 2000

  /** The distance of sample x: (x / 2000) * length. */
  function SampleDistance(x: nat, length: real): real
  {
    (x as real / SampleCount as real) * length
  }

  lemma {:induction false} SampleDistanceIncreasing(x: nat, y: nat, length: real)
    requires x < y
    ensures length > 0.0 ==> SampleDistance(x, length) < SampleDistance(y, length)
  {
    if length <= 0.0 { return; }
    assert x as real / SampleCount as real < y as real / SampleCount as real;
    MulLeft(x as real / SampleCount as real, y as real / SampleCount as real, length);
    assert (y as real / SampleCount as real - x as real / SampleCount as real) * length > 0.0;
  }

  /**
   * The first x samples of the description: each sample distance with a
   * finite elevation, in order, and the others skipped.
   */
  function SampledDescription(length: real, elevationAt: real -> JsNumber, x: nat): (r: MapDescription)
    ensures |r.distances| == |r.elevations| <= x
    ensures forall i :: 0 <= i < |r.distances| ==> exists k :: 0 <= k < x && r.distances[i] == SampleDistance(k, length)
    ensures length > 0.0 ==> forall i :: 0 <= i < |r.distances| ==> r.distances[i] < SampleDistance(x, length)
    ensures length > 0.0 ==> StrictlyIncreasing(r.distances)
  {
    if x == 0 then MapDescription([], [])
    else
      var prev := SampledDescription(length, elevationAt, x - 1);
      var d := SampleDistance(x - 1, length);
      SampleDistanceIncreasing(x - 1, x, length);
      match elevationAt(d)
      case Finite(e) => MapDescription(prev.distances + [d], prev.elevations + [e])
      case _ => prev
  }

  /** A sample is kept exactly when its elevation is finite. */
  lemma {:induction false} SampleKept(length: real, elevationAt: real -> JsNumber, x: nat, k: nat)
    requires length > 0.0
    ensures SampleDistance(k, length) in SampledDescription(length, elevationAt, x).distances
            <==> k < x && elevationAt(SampleDistance(k, length)).Finite?
  {
    if x > 0 {
      SampleKept(length, elevationAt, x - 1, k);
      var prev := SampledDescription(length, elevationAt, x - 1);
      if k >= x {
        SampleDistanceIncreasing(x - 1, k, length);
        if k > x { SampleDistanceIncreasing(x, k, length); }
      } else if k < x - 1 {
        SampleDistanceIncreasing(k, x - 1, length);
      }
    }
  }

  /** The first kept sample is the start line when the elevation there is finite. */
  lemma {:induction false} FirstSampleAtStart(length: real, elevationAt: real -> JsNumber, x: nat)
    requires x >= 1 && elevationAt(0.0).Finite?
    ensures var r := SampledDescription(length, elevationAt, x);
      |r.distances| > 0 && r.distances[0] == 0.0
  {
    if x > 1 {
      FirstSampleAtStart(length, elevationAt, x - 1);
    } else {
      assert SampleDistance(0, length) == 0.0;
    }
  }

  /**
   * What a client needs to rebuild the course: the description of a
   * course of positive length whose start elevation is finite satisfies
   * everything the interpolation of RideMapHandicap relies on.
   */
  lemma DescriptionInterpolable(length: real, elevationAt: real -> JsNumber)
    requires length > 0.0 && elevationAt(0.0).Finite?
    ensures Interpolable(SampledDescription(length, elevationAt, SampleCount))
  {
    FirstSampleAtStart(length, elevationAt, SampleCount);
  }

  /** The ServerMapDescription constructor. */
  method NewServerMapDescription(length: real, elevationAt: real -> JsNumber) returns (desc: MapDescription)
    ensures desc == SampledDescription(length, elevationAt, SampleCount)
  {
    var distances: seq<real> := [];
    var elevations: seq<real> := [];
    var x := 0;
    while x < SampleCount
      invariant 0 <= x <= SampleCount
      invariant MapDescription(distances, elevations) == SampledDescription(length, elevationAt, x)
    {
      var sampleDistance := (x as real / SampleCount as real) * length;
      var elev := elevationAt(sampleDistance);
      assert sampleDistance == SampleDistance(x, length);
      if IsFinite(elev) {
        distances := distances + [sampleDistance];
        elevations := elevations + [elev.v];
      } else {
        // the source only logs here
      }
      x := x + 1;
    }
    desc := MapDescription(distances, elevations);
  }

  // ---------------------------------------------------------------------
  // ClientToServerUpdate

  datatype ClientUpdate = ClientUpdate(gameId: string, userId: int, lastPower: real, lastHrm: Option<real>)

  /**
   * The ClientToServerUpdate constructor: it throws without a local rider,
   * and otherwise reports that rider's id, last power and, only when it is
   * positive, its heart rate.
   */
  function ClientToServerUpdate(gameId: string, users: seq<User>, tmNow: int): (r: Result<ClientUpdate>)
    reads users, Recs(users)
    ensures r.Failure? <==> LocalUser(users).None?
    ensures r.Success? ==>
      var u := LocalUser(users).value;
      var hrm := LastHrm(u.rec.State(), tmNow);
      r.value.gameId == gameId && r.value.userId == u.rec.id && r.value.lastPower == u.rec.lastPower
      && (r.value.lastHrm.Some? <==> hrm > 0.0)
      && (r.value.lastHrm.Some? ==> r.value.lastHrm.value == hrm)
  {
    match LocalUser(users)
    case None => Failure("Can't build a ClientToServerUpdate without a local player!")
    case Some(localGuy) =>
      assert localGuy.rec in Recs(users);
      var hrm := localGuy.rec.GetLastHrm(tmNow);
      Success(ClientUpdate(gameId, localGuy.rec.id, localGuy.rec.lastPower, if hrm > 0.0 then Some(hrm) else None))
  }

  // ---------------------------------------------------------------------
  // apiGetInternal / apiPostInternal

  /** The separator between the API root and the endpoint. */
  function Separator(apiRoot: string, endPoint: string): string
  {
    if (|endPoint| > 0 && endPoint[0] == '/') || (|apiRoot| > 0 && apiRoot[|apiRoot| - 1] == '/') then "" else "/"
  }

  /**
   * The URL the HTTP helpers request: the root, then the endpoint, with a
   * slash added only when neither side brings one, so there is always a
   * slash where the two meet.
   */
  function JoinUrl(apiRoot: string, endPoint: string): (r: string)
    ensures |r| == |apiRoot| + |endPoint| + |Separator(apiRoot, endPoint)|
    ensures r[..|apiRoot|] == apiRoot && r[|r| - |endPoint|..] == endPoint
    ensures (|apiRoot| > 0 && r[|apiRoot| - 1] == '/') || r[|apiRoot|] == '/'
  {
    apiRoot + Separator(apiRoot, endPoint) + endPoint
  }

  /** A slash is added exactly when the root does not end with one and the endpoint does not start with one. */
  lemma SeparatorAdded(apiRoot: string, endPoint: string)
    ensures Separator(apiRoot, endPoint) == "/"
            <==> !(|endPoint| > 0 && endPoint[0] == '/') && !(|apiRoot| > 0 && apiRoot[|apiRoot| - 1] == '/')
    ensures Separator(apiRoot, endPoint) == "" || Separator(apiRoot, endPoint) == "/"
  {
  }
}
