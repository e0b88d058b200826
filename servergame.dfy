/**
 * ServerGame.ts: the server's side of one race. A ServerUser is a rider
 * with six rolling power windows that re-estimate a human's handicap; the
 * ServerUserProvider is the roster with its id counter; a ServerGame runs
 * the pre-race / racing / post-race lifecycle on a clock tick and drives
 * the AI riders' power.
 *
 * ServerUser extends User in the source; here it holds its User as a
 * `rider` field. The module-level id counter is an IdCounter object that
 * every provider of a server shares. The wall clock is the `tmNow`
 * parameter; Math.random() values (the AI power jitter, the outputs of
 * the random and neural brains) are parameters too.
 */
module ServerGames {
  import opened Common
  import opened RideMaps
  import opened Riders
  import opened SpanAverages
  import opened Races
  import opened Messages

  // ---------------------------------------------------------------------
  // AI brains

  /**
   * The deterministic brains keep their parameters; AIBoringBrain,
   * AISineBrain and AINNBrain produce random or predicted output, which
   * reaches the model as a given wattage (OtherBrain).
   */
  datatype Brain =
    | HillBrain(magnitude: real, strength: real)
    | DumbSavey(fractionOfLengthToSave: real, fractionToSaveAt: real, strength: real)
    | UltraBoringBrain(strength: real)
    | OtherBrain

  /** AIHillBrain.getPower: the handicap scaled up on climbs and down on descents, floored at zero before the strength. */
  function HillPower(magnitude: real, strength: real, handicap: real, slopeWholePercent: real): (r: real)
    ensures strength >= 0.0 ==> r >= 0.0
    ensures slopeWholePercent == 0.0 ==> r == strength * Max(0.0, handicap)
  {
    var modSlope := magnitude * slopeWholePercent / 100.0 + 1.0;
    var r := strength * Max(0.0, handicap * modSlope);
    assert strength >= 0.0 ==> r >= 0.0 by {
      if strength >= 0.0 { MulNonneg(strength, Max(0.0, handicap * modSlope)); }
    }
    r
  }

  /** For a non-negative brain and handicap, a steeper climb never asks for less power. */
  lemma HillPowerMonotone(magnitude: real, strength: real, handicap: real, slope1: real, slope2: real)
    requires magnitude >= 0.0 && strength >= 0.0 && handicap >= 0.0 && slope1 <= slope2
    ensures HillPower(magnitude, strength, handicap, slope1) <= HillPower(magnitude, strength, handicap, slope2)
  {
    var m1 := magnitude * slope1 / 100.0 + 1.0;
    var m2 := magnitude * slope2 / 100.0 + 1.0;
    MulNonneg(magnitude, slope2 - slope1);
    assert m2 - m1 == magnitude * (slope2 - slope1) / 100.0;
    MulNonneg(handicap, m2 - m1);
    assert handicap * m2 - handicap * m1 == handicap * (m2 - m1);
    MulNonneg(strength, Max(0.0, handicap * m2) - Max(0.0, handicap * m1));
    assert strength * Max(0.0, handicap * m2) - strength * Max(0.0, handicap * m1)
        == strength * (Max(0.0, handicap * m2) - Max(0.0, handicap * m1));
  }

  /** The charge effort of DumbSavey: what the last stretch must average to use the whole budget. */
  function ChargeEffort(fractionOfLengthToSave: real, fractionToSaveAt: real): real
    requires fractionOfLengthToSave != 1.0
  {
    (1.0 - fractionOfLengthToSave * fractionToSaveAt) / (1.0 - fractionOfLengthToSave)
  }

  /**
   * DumbSavey's plan spends exactly the handicap on average: the saving
   * stretch at fractionToSaveAt and the rest at the charge effort.
   */
  lemma SaveyBudget(f: real, g: real)
    requires f != 1.0
    ensures f * g + (1.0 - f) * ChargeEffort(f, g) == 1.0
  {
  }

  /**
   * DumbSavey.getPower: a fraction of the handicap (times the strength)
   * until the saving part of the course is done, then the charge effort
   * (without the strength factor).
   */
  function SaveyPower(f: real, g: real, strength: real, handicap: real, dist: real, mapLength: real): (r: real)
    requires mapLength != 0.0 && f != 1.0
    ensures dist / mapLength < f ==> r == strength * handicap * g
    ensures dist / mapLength >= f ==> r == ChargeEffort(f, g) * handicap
  {
    var myPctOfMap := dist / mapLength;
    if myPctOfMap < f then strength * handicap * g else ChargeEffort(f, g) * handicap
  }

  /** With a sensible plan (f < 1, f·g <= 1) and non-negative inputs, DumbSavey never asks for negative power. */
  lemma SaveyPowerNonNegative(f: real, g: real, strength: real, handicap: real, dist: real, mapLength: real)
    requires mapLength != 0.0 && f < 1.0 && f * g <= 1.0 && g >= 0.0 && strength >= 0.0 && handicap >= 0.0
    ensures SaveyPower(f, g, strength, handicap, dist, mapLength) >= 0.0
  {
    if dist / mapLength < f {
      MulNonneg(strength, handicap);
      MulNonneg(strength * handicap, g);
    } else {
      DivNonneg(1.0 - f * g, 1.0 - f);
      MulNonneg(ChargeEffort(f, g), handicap);
    }
  }

  lemma DivNonneg(a: real, b: real)
    requires a >= 0.0 && b > 0.0
    ensures a / b >= 0.0
  {
    var q := a / b;
    assert q * b == a;
    if q < 0.0 {
      MulPos(-q, b);
      assert false;
    }
  }

  /** The brains' parameters stay where their constructors put them: a saving stretch shorter than the course. */
  predicate BrainOk(b: Brain)
  {
    b.DumbSavey? ==> b.fractionOfLengthToSave < 1.0
  }

  /** getPower of the rider's brain; OtherBrain answers `other`. */
  function BrainPower(b: Brain, handicap: real, dist: real, mapLength: real, slopeWholePercent: real, other: real): real
    requires BrainOk(b) && mapLength != 0.0
  {
    match b
    case HillBrain(magnitude, strength) => HillPower(magnitude, strength, handicap, slopeWholePercent)
    case DumbSavey(f, g, strength) => SaveyPower(f, g, strength, handicap, dist, mapLength)
    case UltraBoringBrain(strength) => strength * DefaultHandicapPower
    case OtherBrain => other
  }

  /**
   * The power _tick hands an AI rider: zero when the AIs coast, else its
   * brain's output or, without a brain, its handicap scaled by itself over
   * 300 plus the jitter; never negative.
   */
  function AiPower(coast: bool, brain: Option<Brain>, handicap: real, dist: real, course: RideMap,
                   jitter: real, other: real): (r: real)
    requires brain.Some? ==> BrainOk(brain.value)
    requires course.length != 0.0
    ensures r >= 0.0
    ensures coast ==> r == 0.0
    ensures !coast && brain.None? ==> r == Max(0.0, (handicap / DefaultHandicapPower) * handicap + jitter)
  {
    var pct := handicap / DefaultHandicapPower;
    var power :=
      if coast then 0.0
      else if brain.Some? then
        BrainPower(brain.value, handicap, dist, course.length, SlopeAtDistance(course, dist) * 100.0, other)
      else pct * handicap + jitter;
    Max(0.0, power)
  }

  // ---------------------------------------------------------------------
  // The human re-handicap of ServerUser.notifyPower

  /** The 5-minute window is ready and shows no output: the rider has been sitting still. */
  predicate Idle(s5: SpanState)
    requires DtConsistent(s5)
  {
    Ready(s5) && (ReadyHasWeight(s5); Average(s5) <= 0.0)
  }

  /** A ready window's weighted estimate, or nothing. */
  function Reading(st: SpanState, ratio: real): (r: Option<real>)
    requires DtConsistent(st)
    ensures r.Some? <==> Ready(st)
  {
    if Ready(st) then ReadyHasWeight(st); Some(Average(st) * ratio) else None
  }

  /** The hour-power ratios for the 5-, 10- and 20-minute windows. */
  const Ratio5: real := 0.835
  const Ratio10: real := 0.879
  const Ratio20: real := 0.912

  /** The mean of the readings present: their sum over their number. */
  function MeanOfPresent(readings: seq<Option<real>>): (r: Option<real>)
  {
    var n := CountPresent(readings);
    if n == 0 then None else Some(SumPresent(readings) / n as real)
  }

  function CountPresent(readings: seq<Option<real>>): nat
  {
    if readings == [] then 0
    else CountPresent(readings[..|readings| - 1]) + (if readings[|readings| - 1].Some? then 1 else 0)
  }

  function SumPresent(readings: seq<Option<real>>): real
  {
    if readings == [] then 0.0
    else SumPresent(readings[..|readings| - 1]) + (if readings[|readings| - 1].Some? then readings[|readings| - 1].value else 0.0)
  }

  /** Every present reading is at least `lo` and at most `hi`. */
  predicate PresentWithin(readings: seq<Option<real>>, lo: real, hi: real)
  {
    forall i :: 0 <= i < |readings| && readings[i].Some? ==> lo <= readings[i].value <= hi
  }

  /** The mean of three readings lies between any bounds of the present ones. */
  lemma MeanOfThreeWithin(a: Option<real>, b: Option<real>, c: Option<real>, lo: real, hi: real)
    requires PresentWithin([a, b, c], lo, hi)
    ensures MeanOfPresent([a, b, c]).Some? ==> lo <= MeanOfPresent([a, b, c]).value <= hi
  {
    PresentOfThree(a, b, c);
    var n := CountPresent([a, b, c]);
    if n > 0 {
      var sum := SumPresent([a, b, c]);
      assert [a, b, c][0] == a && [a, b, c][1] == b && [a, b, c][2] == c;
      assert n as real * lo <= sum <= n as real * hi by {
        if n == 1 {
        } else if n == 2 {
        } else {
          assert n == 3;
        }
      }
      DivAtLeast(sum, lo, n as real);
      DivOfBound(sum, hi, n as real);
    }
  }

  lemma {:induction false} CountPresentZero(readings: seq<Option<real>>)
    ensures CountPresent(readings) == 0 <==> forall i :: 0 <= i < |readings| ==> readings[i].None?
  {
    if readings != [] {
      var init := readings[..|readings| - 1];
      CountPresentZero(init);
      assert forall i :: 0 <= i < |init| ==> init[i] == readings[i];
    }
  }

  /**
   * The estimate notifyPower forms: the mean over the ready windows of
   * 5, 10 and 20 minutes, each average scaled by its ratio.
   */
  function FtpEstimate(s5: SpanState, s10: SpanState, s20: SpanState): (r: Option<real>)
    requires DtConsistent(s5) && DtConsistent(s10) && DtConsistent(s20)
    ensures r.None? <==> !Ready(s5) && !Ready(s10) && !Ready(s20)
  {
    var readings := [Reading(s5, Ratio5), Reading(s10, Ratio10), Reading(s20, Ratio20)];
    CountPresentZero(readings);
    assert readings[0].None? <==> !Ready(s5);
    assert readings[1].None? <==> !Ready(s10);
    assert readings[2].None? <==> !Ready(s20);
    MeanOfPresent(readings)
  }

  /** The estimate lies between the smallest and the largest scaled reading of a ready window. */
  lemma FtpEstimateWithin(s5: SpanState, s10: SpanState, s20: SpanState, lo: real, hi: real)
    requires DtConsistent(s5) && DtConsistent(s10) && DtConsistent(s20)
    requires PresentWithin([Reading(s5, Ratio5), Reading(s10, Ratio10), Reading(s20, Ratio20)], lo, hi)
    ensures FtpEstimate(s5, s10, s20).Some? ==> lo <= FtpEstimate(s5, s10, s20).value <= hi
  {
    MeanOfThreeWithin(Reading(s5, Ratio5), Reading(s10, Ratio10), Reading(s20, Ratio20), lo, hi);
  }

  /** The handicap after an estimate: raised to it only when it is at least 2% above the current one. */
  function Rehandicapped(handicap: real, estimate: Option<real>): (r: real)
    ensures r == handicap || (estimate.Some? && r == estimate.value && r >= handicap * 1.02)
    ensures estimate.Some? && estimate.value >= handicap * 1.02 ==> r == estimate.value
    ensures handicap >= 0.0 ==> r >= handicap
  {
    if estimate.Some? && estimate.value >= handicap * 1.02 then estimate.value else handicap
  }

  /** A window as notifyPower leaves it: cleared to its own length when the rider is idle. */
  function IdleCleared(s5: SpanState, st: SpanState, minutes: real): (r: SpanState)
    requires DtConsistent(s5)
  {
    if Idle(s5) then Cleared(minutes * 60.0) else st
  }

  /** The clock has moved past the anchor of every window that has one. */
  predicate AnchorsBefore(ws: seq<SpanState>, tmNow: int)
  {
    forall i :: 0 <= i < |ws| ==> ws[i].tmLast == 0 || tmNow > ws[i].tmLast
  }

  /** The 5-minute window shows an idle rider once it has taken the reading. */
  predicate IdleAfterAdd(ws: seq<SpanState>, tmNow: int, watts: real)
    requires WindowsOk(ws) && AnchorsBefore(ws, tmNow)
  {
    AddKeepsDtConsistent(ws[0], tmNow, watts);
    Idle(AfterAdd(ws[0], tmNow, watts))
  }

  /** Every window with the reading added. */
  function Added(ws: seq<SpanState>, tmNow: int, watts: real): (r: seq<SpanState>)
    requires WindowsOk(ws) && AnchorsBefore(ws, tmNow)
    ensures |r| == 6 && forall i :: 0 <= i < 6 ==> r[i] == AfterAdd(ws[i], tmNow, watts)
    ensures WindowsOk(r)
  {
    AddKeepsDtConsistent(ws[0], tmNow, watts);
    AddKeepsDtConsistent(ws[1], tmNow, watts);
    AddKeepsDtConsistent(ws[2], tmNow, watts);
    AddKeepsDtConsistent(ws[3], tmNow, watts);
    AddKeepsDtConsistent(ws[4], tmNow, watts);
    AddKeepsDtConsistent(ws[5], tmNow, watts);
    seq(6, i requires 0 <= i < 6 => AfterAdd(ws[i], tmNow, watts))
  }

  /** The idle reset: the 10 and 20 minute windows cleared when the 5-minute one shows an idle rider. */
  function IdleReset(added: seq<SpanState>): (r: seq<SpanState>)
    requires WindowsOk(added)
    ensures |r| == 6
    ensures forall i :: 0 <= i < 6 && i != 1 && i != 2 ==> r[i] == added[i]
    ensures !Idle(added[0]) ==> r[1] == added[1] && r[2] == added[2]
    ensures Idle(added[0]) ==> r[1] == Cleared(600.0) && r[2] == Cleared(1200.0)
    ensures WindowsOk(r)
  {
    added[1 := IdleCleared(added[0], added[1], 10.0)][2 := IdleCleared(added[0], added[2], 20.0)]
  }

  /** The estimate of a set of windows: that of its 5, 10 and 20 minute ones. */
  function EstimateOf(ws: seq<SpanState>): (r: Option<real>)
    requires WindowsOk(ws)
    ensures r.None? <==> !Ready(ws[0]) && !Ready(ws[1]) && !Ready(ws[2])
  {
    FtpEstimate(ws[0], ws[1], ws[2])
  }

  /** Every window of a human after one notifyPower: the sample added, then the idle reset of the 10 and 20 minute ones. */
  function WindowsAfter(ws: seq<SpanState>, tmNow: int, watts: real): (r: seq<SpanState>)
    requires WindowsOk(ws) && AnchorsBefore(ws, tmNow)
    ensures |r| == 6 && WindowsOk(r)
    ensures forall i :: 0 <= i < 6 && i != 1 && i != 2 ==> r[i] == AfterAdd(ws[i], tmNow, watts)
    ensures !IdleAfterAdd(ws, tmNow, watts) ==> r[1] == AfterAdd(ws[1], tmNow, watts) && r[2] == AfterAdd(ws[2], tmNow, watts)
    ensures IdleAfterAdd(ws, tmNow, watts) ==> r[1] == Cleared(600.0) && r[2] == Cleared(1200.0)
  {
    IdleReset(Added(ws, tmNow, watts))
  }

  /** Windows a ServerUser can keep: each has non-negative length and a weight equal to its positive samples'. */
  predicate WindowsOk(ws: seq<SpanState>)
  {
    |ws| == 6
    && ws[0].secondsSpan == 300.0 && ws[1].secondsSpan == 600.0 && ws[2].secondsSpan == 1200.0
    && ws[3].secondsSpan == 1800.0 && ws[4].secondsSpan == 2700.0 && ws[5].secondsSpan == 3600.0
    && DtConsistent(ws[0]) && DtConsistent(ws[1]) && DtConsistent(ws[2])
    && DtConsistent(ws[3]) && DtConsistent(ws[4]) && DtConsistent(ws[5])
  }

  /** The handicap after one notifyPower of a human: the re-estimate from the updated windows. */
  function HandicapAfter(handicap: real, ws: seq<SpanState>, tmNow: int, watts: real): (r: real)
    requires WindowsOk(ws) && AnchorsBefore(ws, tmNow)
  {
    Rehandicapped(handicap, EstimateOf(WindowsAfter(ws, tmNow, watts)))
  }

  /** A human's handicap never falls through notifyPower, and it changes only by a raise of at least 2%. */
  lemma {:induction false} HandicapNeverFalls(handicap: real, ws: seq<SpanState>, tmNow: int, watts: real)
    requires WindowsOk(ws) && AnchorsBefore(ws, tmNow)
    requires handicap >= 0.0
    ensures HandicapAfter(handicap, ws, tmNow, watts) >= handicap
    ensures HandicapAfter(handicap, ws, tmNow, watts) != handicap ==> HandicapAfter(handicap, ws, tmNow, watts) >= handicap * 1.02
  {
  }

  /**
   * Five idle minutes clear the longer windows, so the estimate is the
   * 5-minute reading alone, which is not positive: a positive handicap
   * stays as it is.
   */
  lemma {:induction false} IdleKeepsHandicap(handicap: real, ws: seq<SpanState>, tmNow: int, watts: real)
    requires WindowsOk(ws) && AnchorsBefore(ws, tmNow)
    requires handicap > 0.0
    requires IdleAfterAdd(ws, tmNow, watts)
    ensures HandicapAfter(handicap, ws, tmNow, watts) == handicap
  {
    var after := WindowsAfter(ws, tmNow, watts);
    assert !Ready(after[1]) && !Ready(after[2]);
    ReadyHasWeight(after[0]);
    var avg := Average(after[0]);
    var readings := [Reading(after[0], Ratio5), Reading(after[1], Ratio10), Reading(after[2], Ratio20)];
    assert readings[0] == Some(avg * Ratio5) && readings[1].None? && readings[2].None?;
    assert avg * Ratio5 <= 0.0;
    MeanOfThreeWithin(readings[0], readings[1], readings[2], avg * Ratio5, 0.0);
  }

  /** readings of three windows: the count and the sum of the present ones. */
  lemma PresentOfThree(a: Option<real>, b: Option<real>, c: Option<real>)
    ensures CountPresent([a, b, c]) == (if a.Some? then 1 else 0) + (if b.Some? then 1 else 0) + (if c.Some? then 1 else 0)
    ensures SumPresent([a, b, c]) == (if a.Some? then a.value else 0.0) + (if b.Some? then b.value else 0.0)
                                     + (if c.Some? then c.value else 0.0)
  {
    assert [a][..0] == [];
    assert CountPresent([a]) == (if a.Some? then 1 else 0);
    assert SumPresent([a]) == (if a.Some? then a.value else 0.0);
    assert [a, b][..1] == [a];
    assert CountPresent([a, b]) == CountPresent([a]) + (if b.Some? then 1 else 0);
    assert SumPresent([a, b]) == SumPresent([a]) + (if b.Some? then b.value else 0.0);
    assert [a, b, c][..2] == [a, b];
  }

  // ---------------------------------------------------------------------
  // ServerUser

  /** The fields of a ClientConnectionRequest the roster uses. */
  datatype ConnectionRequest = ConnectionRequest(sub: string, riderName: string, riderHandicap: real)

  class ServerUser {
    const rider: User
    const sub: string
    /** Whether the rider has a websocket (the source's `_wsConnection !== null`). */
    const hasSocket: bool
    /** The entries of the `_spanAverages` map, keyed 5, 10, 20, 30, 45 and 60 minutes. */
    const span5: SpanAverage
    const span10: SpanAverage
    const span20: SpanAverage
    const span30: SpanAverage
    const span45: SpanAverage
    const span60: SpanAverage

    /** The windows' states, shortest first. */
    function Windows(): (r: seq<SpanState>)
      reads span5, span10, span20, span30, span45, span60
    {
      [span5.State(), span10.State(), span20.State(), span30.State(), span45.State(), span60.State()]
    }

    /** Six distinct windows, of the lengths their keys say, each with a consistent weight. */
    predicate Valid()
      reads span5, span10, span20, span30, span45, span60
    {
      Distinct6(span5, span10, span20, span30, span45, span60)
      && span5.Valid() && span10.Valid() && span20.Valid() && span30.Valid() && span45.Valid() && span60.Valid()
      && WindowsOk(Windows())
    }

    /** What notifyPower may change beyond the recorder: nothing for an AI, the rider and its windows for a human. */
    function HumanFrame(): set<object>
      reads rider
    {
      if HasFlag(rider.typeFlags, Ai) then {} else {rider, span5, span10, span20, span30, span45, span60}
    }

    /** The clock has moved past the anchor of every window that has one. */
    predicate ClockPast(tmNow: int)
      reads span5, span10, span20, span30, span45, span60
    {
      AnchorsBefore(Windows(), tmNow)
    }

    /**
     * The rider part (super(...) in the source) is built by the caller and
     * handed in; the windows start empty.
     */
    constructor(sub: string, rider: User, hasSocket: bool)
      ensures this.rider == rider && this.sub == sub && this.hasSocket == hasSocket
      ensures fresh(span5) && fresh(span10) && fresh(span20) && fresh(span30) && fresh(span45) && fresh(span60)
      ensures span5.State() == Cleared(300.0) && span10.State() == Cleared(600.0) && span20.State() == Cleared(1200.0)
      ensures span30.State() == Cleared(1800.0) && span45.State() == Cleared(2700.0) && span60.State() == Cleared(3600.0)
      ensures Valid()
    {
      this.rider := rider;
      this.sub := sub;
      this.hasSocket := hasSocket;
      span5 := new SpanAverage(5.0 * 60.0);
      span10 := new SpanAverage(10.0 * 60.0);
      span20 := new SpanAverage(20.0 * 60.0);
      span30 := new SpanAverage(30.0 * 60.0);
      span45 := new SpanAverage(45.0 * 60.0);
      span60 := new SpanAverage(60.0 * 60.0);
      new;
      ClearedWindowsOk();
    }

    /**
     * notifyPower: the recorder takes the reading; for a human every window
     * takes it too, the 10 and 20 minute windows are cleared after five
     * idle minutes, and the handicap is raised to the mean of the ready
     * 5/10/20 minute estimates when that is at least 2% above it.
     */
    method NotifyPower(tmNow: int, watts: real)
      requires !HasFlag(rider.typeFlags, Ai) ==> Valid() && rider.handicap >= 0.0 && ClockPast(tmNow)
      modifies rider.rec, HumanFrame()
      ensures !HasFlag(old(rider.typeFlags), Ai) ==> Valid()
      ensures rider.rec.State() == old(rider.rec.State()).(lastPower := watts, tmLastPower := tmNow,
                                     powerHistory := old(rider.rec.powerHistory) + [HistoryElement(tmNow, watts)])
      ensures HasFlag(old(rider.typeFlags), Ai) ==> rider.State() == old(rider.State()) && Windows() == old(Windows())
      ensures !HasFlag(old(rider.typeFlags), Ai) ==>
        Windows() == WindowsAfter(old(Windows()), tmNow, watts)
        && rider.State() == old(rider.State()).(handicap := HandicapAfter(old(rider.handicap), old(Windows()), tmNow, watts))
    {
      rider.rec.NotifyPower(tmNow, watts);
      if !HasFlag(rider.typeFlags, Ai) {
        // we're a human
        ghost var ws := Windows();
        AddToWindows(tmNow, watts);
        // (the training snapshot is not part of this model)
        Rehandicap(Added(ws, tmNow, watts));
      }
    }

    /** Every window takes the reading. */
    method AddToWindows(tmNow: int, watts: real)
      requires Valid() && ClockPast(tmNow)
      modifies span5, span10, span20, span30, span45, span60
      ensures Distinct6(span5, span10, span20, span30, span45, span60)
      ensures span5.Valid() && span10.Valid() && span20.Valid() && span30.Valid() && span45.Valid() && span60.Valid()
      ensures Windows() == Added(old(Windows()), tmNow, watts)
    {
      ghost var ws := Windows();
      span5.Add(tmNow, watts);
      span10.Add(tmNow, watts);
      span20.Add(tmNow, watts);
      span30.Add(tmNow, watts);
      span45.Add(tmNow, watts);
      span60.Add(tmNow, watts);
      assert Windows() == Added(ws, tmNow, watts);
    }

    /**
     * The rest of notifyPower for a human, once the windows have the
     * reading: the idle reset, the estimate and the raise.
     */
    method Rehandicap(ghost added: seq<SpanState>)
      requires WindowsOk(added) && Windows() == added && rider.handicap >= 0.0
      requires Distinct6(span5, span10, span20, span30, span45, span60)
      modifies rider, span10, span20
      ensures Windows() == IdleReset(added)
      ensures rider.State() == old(rider.State()).(handicap := Rehandicapped(old(rider.handicap), EstimateOf(IdleReset(added))))
    {
      ghost var after := IdleReset(added);
      ghost var r5, r10, r20 := Reading(after[0], Ratio5), Reading(after[1], Ratio10), Reading(after[2], Ratio20);
      PresentOfThree(r5, r10, r20);
      var estSum := 0.0;
      var estCount := 0;
      ReadyHasWeightIf(span5.State());
      if span5.IsReady() {
        var avg := span5.GetAverage();
        if avg <= 0.0 {
          span10.Reset(10.0 * 60.0);
          span20.Reset(20.0 * 60.0);
        }
        estSum := estSum + avg * 0.835;
        estCount := estCount + 1;
      }
      assert estCount == (if r5.Some? then 1 else 0) && estSum == (if r5.Some? then r5.value else 0.0);
      assert span10.State() == after[1] && span20.State() == after[2];
      ReadyHasWeightIf(after[1]);
      ReadyHasWeightIf(after[2]);
      if span10.IsReady() {
        var avg := span10.GetAverage();
        estSum := estSum + avg * 0.879;
        estCount := estCount + 1;
      }
      if span20.IsReady() {
        var avg := span20.GetAverage();
        estSum := estSum + avg * 0.912;
        estCount := estCount + 1;
      }
      assert estCount == CountPresent([r5, r10, r20]) && estSum == SumPresent([r5, r10, r20]);
      if estCount > 0 {
        var estFtp := estSum / estCount as real;
        assert EstimateOf(after) == Some(estFtp);
        if estFtp >= rider.handicap * 1.02 {
          rider.SetHandicap(estFtp, ServerRehandicap);
        }
      }
    }

    /** setPosition. */
    method SetPosition(where: real)
      modifies rider
      ensures rider.State() == old(rider.State()).(position := where)
    {
      rider.position := where;
    }
  }

  /** Six fresh windows of the six lengths are sound. */
  lemma ClearedWindowsOk()
    ensures WindowsOk([Cleared(300.0), Cleared(600.0), Cleared(1200.0), Cleared(1800.0), Cleared(2700.0), Cleared(3600.0)])
  {
  }

  predicate Distinct6(a: SpanAverage, b: SpanAverage, c: SpanAverage, d: SpanAverage, e: SpanAverage, f: SpanAverage)
  {
    a != b && a != c && a != d && a != e && a != f
    && b != c && b != d && b != e && b != f
    && c != d && c != e && c != f
    && d != e && d != f
    && e != f
  }

  lemma ReadyHasWeightIf(st: SpanState)
    requires DtConsistent(st)
    ensures Ready(st) ==> st.dtSum != 0.0
  {
    if Ready(st) {
      ReadyHasWeight(st);
    }
  }

  // ---------------------------------------------------------------------
  // ServerUserProvider

  /** The module-level userIdCounter, shared by every roster of the server. */
  class IdCounter {
    var next: int

    constructor()
      ensures next == 0
    {
      next := 0;
    }
  }

  /** The rider of each ServerUser, in roster order. */
  function RidersOf(users: seq<ServerUser>): (r: seq<User>)
    ensures |r| == |users| && forall k :: 0 <= k < |users| ==> r[k] == users[k].rider
  {
    if users == [] then [] else RidersOf(users[..|users| - 1]) + [users[|users| - 1].rider]
  }

  /** getUsers' test: a packet within the last 300000 ms, a finish time, or an AI or bot rider. */
  predicate IsLive(u: ServerUser, tmNow: int)
    reads u.rider, u.rider.rec
  {
    u.rider.rec.MsSinceLastPacket(tmNow) < 300000 || u.rider.rec.IsFinished() || HasFlag(u.rider.typeFlags, Ai | Bot)
  }

  /** getUsers: the live riders, in roster order. */
  function Live(users: seq<ServerUser>, tmNow: int): (r: seq<ServerUser>)
    reads RidersOf(users), Recs(RidersOf(users))
    ensures forall u :: u in r ==> u in users && IsLive(u, tmNow)
    ensures forall u :: u in users && IsLive(u, tmNow) ==> u in r
    ensures |r| <= |users|
  {
    if users == [] then []
    else
      var rest := users[1..];
      TailRecs(users);
      var tail := Live(rest, tmNow);
      if IsLive(users[0], tmNow) then [users[0]] + tail else tail
  }

  /** Which entries of the roster getUsers keeps, entry by entry. */
  function LiveFlags(users: seq<ServerUser>, tmNow: int): (r: seq<bool>)
    reads RidersOf(users), Recs(RidersOf(users))
    ensures |r| == |users|
  {
    if users == [] then []
    else
      var init := users[..|users| - 1];
      assert forall k :: 0 <= k < |init| ==> RidersOf(init)[k] == RidersOf(users)[k];
      LiveFlags(init, tmNow) + [IsLive(users[|users| - 1], tmNow)]
  }

  /** Entry k of LiveFlags is getUsers' test on rider k. */
  lemma {:induction false} LiveFlagsAt(users: seq<ServerUser>, tmNow: int, k: nat)
    requires k < |users|
    ensures LiveFlags(users, tmNow)[k] == IsLive(users[k], tmNow)
    decreases |users|
  {
    var init := users[..|users| - 1];
    if k < |init| {
      assert forall j :: 0 <= j < |init| ==> RidersOf(init)[j] == RidersOf(users)[j];
      LiveFlagsAt(init, tmNow, k);
    }
  }

  /** The entries whose flag is set, in order. */
  function Kept(users: seq<ServerUser>, keep: seq<bool>): seq<ServerUser>
    requires |keep| == |users|
  {
    if users == [] then [] else (if keep[0] then [users[0]] else []) + Kept(users[1..], keep[1..])
  }

  /** getUsers keeps exactly the entries LiveFlags marks, so it changes only where those flags do. */
  lemma {:induction false} LiveKept(users: seq<ServerUser>, tmNow: int)
    ensures Live(users, tmNow) == Kept(users, LiveFlags(users, tmNow))
    decreases |users|
  {
    if users != [] {
      var rest := users[1..];
      assert forall k :: 0 <= k < |rest| ==> RidersOf(rest)[k] == RidersOf(users)[k + 1];
      LiveKept(rest, tmNow);
      var flags := LiveFlags(users, tmNow);
      forall k | 0 <= k < |rest|
        ensures LiveFlags(rest, tmNow)[k] == flags[k + 1]
      {
        LiveFlagsAt(rest, tmNow, k);
        LiveFlagsAt(users, tmNow, k + 1);
      }
      LiveFlagsAt(users, tmNow, 0);
      assert flags[1..] == LiveFlags(rest, tmNow);
    }
  }

  /** LiveFlags, entry by entry. */
  lemma LiveFlagsAll(users: seq<ServerUser>, tmNow: int)
    ensures forall k :: 0 <= k < |users| ==> LiveFlags(users, tmNow)[k] == IsLive(users[k], tmNow)
  {
    forall k | 0 <= k < |users|
      ensures LiveFlags(users, tmNow)[k] == IsLive(users[k], tmNow)
    {
      LiveFlagsAt(users, tmNow, k);
    }
  }

  /** Flags that agree with IsLive entry by entry are LiveFlags. */
  lemma {:induction false} SameFlags(users: seq<ServerUser>, tmNow: int, flags: seq<bool>)
    requires |flags| == |users| && forall k :: 0 <= k < |users| ==> flags[k] == IsLive(users[k], tmNow)
    ensures LiveFlags(users, tmNow) == flags
  {
    forall k | 0 <= k < |users|
      ensures LiveFlags(users, tmNow)[k] == flags[k]
    {
      LiveFlagsAt(users, tmNow, k);
    }
  }

  /** Filtering a roster of distinct riders keeps them distinct. */
  lemma {:induction false} LiveRoster(users: seq<ServerUser>, tmNow: int)
    requires Roster(RidersOf(users))
    ensures Roster(RidersOf(Live(users, tmNow)))
  {
    RosterApart(RidersOf(users));
    LiveApart(users, tmNow);
    RosterApart(RidersOf(Live(users, tmNow)));
  }

  /** The same, pair by pair. */
  lemma {:induction false} LiveApart(users: seq<ServerUser>, tmNow: int)
    requires Apart(RidersOf(users))
    ensures Apart(RidersOf(Live(users, tmNow)))
  {
    if users != [] {
      var rest := users[1..];
      assert forall k :: 0 <= k < |rest| ==> RidersOf(rest)[k] == RidersOf(users)[k + 1];
      LiveApart(rest, tmNow);
      var tail := Live(rest, tmNow);
      if IsLive(users[0], tmNow) {
        var r := [users[0]] + tail;
        forall i, j | 0 <= i < |r| && 0 <= j < |r| && i != j
          ensures r[i].rider != r[j].rider && r[i].rider.rec != r[j].rider.rec && r[i].rider.draft != r[j].rider.draft
        {
          if i == 0 || j == 0 {
            var other := if i == 0 then r[j] else r[i];
            assert other in rest;
            var m :| 0 <= m < |rest| && rest[m] == other;
            assert RidersOf(users)[m + 1] == other.rider && RidersOf(users)[0] == users[0].rider;
          } else {
            assert RidersOf(tail)[i - 1] == r[i].rider && RidersOf(tail)[j - 1] == r[j].rider;
          }
        }
      }
    }
  }

  /** The recorders of a roster's tail are among the roster's own. */
  lemma {:induction false} TailRecs(users: seq<ServerUser>)
    requires users != []
    ensures forall r :: r in Recs(RidersOf(users[1..])) ==> r in Recs(RidersOf(users))
  {
    var rest := users[1..];
    forall r | r in Recs(RidersOf(rest))
      ensures r in Recs(RidersOf(users))
    {
      var k :| 0 <= k < |rest| && Recs(RidersOf(rest))[k] == r;
      assert Recs(RidersOf(users))[k + 1] == r;
    }
  }

  /** The index of the first rider with the given id, if any. */
  function IndexOfId(users: seq<ServerUser>, id: int): (r: Option<nat>)
    reads Recs(RidersOf(users))
    ensures r.Some? ==> r.value < |users| && users[r.value].rider.rec.id == id
                        && forall j :: 0 <= j < r.value ==> users[j].rider.rec.id != id
    ensures r.None? ==> forall j :: 0 <= j < |users| ==> users[j].rider.rec.id != id
  {
    IndexFrom(users, id, 0)
  }

  /** The same search, from index i on. */
  function IndexFrom(users: seq<ServerUser>, id: int, i: nat): (r: Option<nat>)
    requires i <= |users|
    reads Recs(RidersOf(users))
    ensures r.Some? ==> i <= r.value < |users| && users[r.value].rider.rec.id == id
                        && forall j :: i <= j < r.value ==> users[j].rider.rec.id != id
    ensures r.None? ==> forall j :: i <= j < |users| ==> users[j].rider.rec.id != id
    decreases |users| - i
  {
    if i == |users| then None
    else if users[i].rider.rec.id == id then Some(i)
    else IndexFrom(users, id, i + 1)
  }

  /** Distinct ids, each at least 0 and below `next`. */
  predicate IdsOk(ids: seq<int>, next: int)
  {
    (forall k :: 0 <= k < |ids| ==> 0 <= ids[k] < next) && FreshIds(ids)
  }

  /** Each id differs from every id before it. */
  predicate FreshIds(ids: seq<int>)
  {
    ids == [] || (FreshIds(ids[..|ids| - 1]) && ids[|ids| - 1] !in ids[..|ids| - 1])
  }

  /** FreshIds is pairwise distinctness. */
  lemma {:induction false} FreshIdsDistinct(ids: seq<int>)
    ensures FreshIds(ids) <==> forall i, j :: 0 <= i < |ids| && 0 <= j < |ids| && i != j ==> ids[i] != ids[j]
    decreases |ids|
  {
    if ids != [] {
      var init := ids[..|ids| - 1];
      FreshIdsDistinct(init);
      assert forall k :: 0 <= k < |init| ==> init[k] == ids[k];
      if forall i, j :: 0 <= i < |ids| && 0 <= j < |ids| && i != j ==> ids[i] != ids[j] {
        assert ids[|ids| - 1] !in init by {
          forall k | 0 <= k < |init|
            ensures init[k] != ids[|ids| - 1]
          {
            assert ids[k] != ids[|ids| - 1];
          }
        }
      }
    }
  }

  /** An id past every earlier one keeps the ids distinct. */
  lemma {:induction false} AppendKeepsIds(ids: seq<int>, next: int)
    requires IdsOk(ids, next) && next >= 0
    ensures IdsOk(ids + [next], next + 1)
  {
    var all := ids + [next];
    assert all[..|all| - 1] == ids;
  }

  /** Riders of their own, appended, keep a roster of distinct riders. */
  lemma {:induction false} AppendKeepsRoster(users: seq<ServerUser>, su: ServerUser)
    requires Roster(RidersOf(users))
    requires forall k :: 0 <= k < |users| ==>
      users[k].rider != su.rider && users[k].rider.rec != su.rider.rec && users[k].rider.draft != su.rider.draft
    ensures Roster(RidersOf(users + [su]))
  {
    RidersOfAppend(users, su);
    AppendRiderKeepsRoster(RidersOf(users), su.rider);
  }

  /** Appending a user appends its rider. */
  lemma {:induction false} RidersOfAppend(users: seq<ServerUser>, su: ServerUser)
    ensures RidersOf(users + [su]) == RidersOf(users) + [su.rider]
  {
    assert (users + [su])[..|users|] == users;
  }

  lemma {:induction false} AppendRiderKeepsRoster(rs: seq<User>, u: User)
    requires Roster(rs)
    requires forall k :: 0 <= k < |rs| ==> rs[k] != u && rs[k].rec != u.rec && rs[k].draft != u.draft
    ensures Roster(rs + [u])
  {
    var all := rs + [u];
    assert all[..|all| - 1] == rs && all[|all| - 1] == u;
  }

  class ServerUserProvider {
    var users: seq<ServerUser>
    const counter: IdCounter
    /** The riders' ids, in roster order. */
    ghost var ids: seq<int>

    /** The roster is sound against the shared counter. */
    ghost predicate Valid()
      reads this, counter, Recs(RidersOf(users))
    {
      counter.next >= 0 && Roster(RidersOf(users)) && |ids| == |users| && IdsOk(ids, counter.next)
      && forall k :: 0 <= k < |users| ==> users[k].rider.rec.id == ids[k] && users[k].rider.massKg == DefaultRiderMass
    }

    constructor(counter: IdCounter)
      requires counter.next >= 0
      ensures this.counter == counter && users == [] && Valid()
    {
      this.counter := counter;
      users := [];
      ids := [];
    }

    /** getUsers. */
    function GetUsers(tmNow: int): (r: seq<ServerUser>)
      reads this, RidersOf(users), Recs(RidersOf(users))
      ensures forall u :: u in r ==> u in users && IsLive(u, tmNow)
    ensures forall u :: u in users && IsLive(u, tmNow) ==> u in r
    {
      Live(users, tmNow)
    }

    /** getUser: the first rider with the id, or null. */
    function GetUser(id: int): (r: Option<ServerUser>)
      reads this, Recs(RidersOf(users))
      ensures r.Some? ==> r.value in users && r.value.rider.rec.id == id
      ensures r.None? ==> forall k :: 0 <= k < |users| ==> users[k].rider.rec.id != id
    {
      match IndexOfId(users, id)
      case None => None
      case Some(k) => Some(users[k])
    }

    /**
     * addUser: the rider takes the next id of the counter, the Remote flag
     * on top of the given ones, the default mass and the handicap of the
     * request, and joins the end of the roster.
     */
    method AddUser(ccr: ConnectionRequest, hasSocket: bool, typeFlags: bv32, tmNow: int) returns (newId: int, su: ServerUser)
      requires Valid()
      modifies this, counter
      ensures Valid()
      ensures newId == old(counter.next) && counter.next == newId + 1
      ensures users == old(users) + [su] && ids == old(ids) + [newId]
      ensures fresh(su) && fresh(su.rider) && fresh(su.rider.rec) && fresh(su.rider.draft)
      ensures su.sub == ccr.sub && su.hasSocket == hasSocket
      ensures su.rider.name == ccr.riderName && su.rider.handicap == ccr.riderHandicap
      ensures su.rider.typeFlags == Remote | typeFlags && su.rider.massKg == DefaultRiderMass
      ensures su.rider.rec.State() == FreshRecorder.(id := newId)
      ensures GetUser(newId) == Some(su)
    {
      newId := counter.next;
      counter.next := counter.next + 1;
      su := NewServerUser(ccr, hasSocket, Remote | typeFlags, tmNow, newId);
      // (assert2 on the socket only logs; the rider's image is not part of this model)
      Append(su, newId);
    }

    /** The end of addUser: a rider of its own, with the id just taken, joins the roster. */
    method Append(su: ServerUser, id: int)
      requires counter.next == id + 1 && id >= 0
      requires Roster(RidersOf(users)) && |ids| == |users| && IdsOk(ids, id)
      requires forall k :: 0 <= k < |users| ==> users[k].rider.rec.id == ids[k] && users[k].rider.massKg == DefaultRiderMass
      requires forall k :: 0 <= k < |users| ==>
        users[k].rider != su.rider && users[k].rider.rec != su.rider.rec && users[k].rider.draft != su.rider.draft
      requires su.rider.rec.id == id && su.rider.massKg == DefaultRiderMass
      modifies this
      ensures Valid() && users == old(users) + [su] && ids == old(ids) + [id] && GetUser(id) == Some(su)
    {
      AppendKeepsRoster(users, su);
      AppendKeepsIds(ids, id);
      users := users + [su];
      ids := ids + [id];
      IndexOfIdByIds(users, ids, id);
      NewestFound(old(ids), id);
    }

    /** The new ServerUser of addUser, with its id set. */
    static method NewServerUser(ccr: ConnectionRequest, hasSocket: bool, typeFlags: bv32, tmNow: int, id: int)
      returns (su: ServerUser)
      requires id >= 0
      ensures fresh(su) && fresh(su.rider) && fresh(su.rider.rec) && fresh(su.rider.draft)
      ensures su.sub == ccr.sub && su.hasSocket == hasSocket && su.Valid()
      ensures su.rider.name == ccr.riderName && su.rider.handicap == ccr.riderHandicap
      ensures su.rider.typeFlags == typeFlags && su.rider.massKg == DefaultRiderMass
      ensures su.rider.rec.State() == FreshRecorder.(id := id)
    {
      var rider := new User(ccr.riderName, DefaultRiderMass, ccr.riderHandicap, typeFlags, tmNow);
      su := new ServerUser(ccr.sub, rider, hasSocket);
      rider.rec.SetId(id);
    }
  }

  /** The first index holding `id`, if any. */
  function IndexIn(ids: seq<int>, id: int): (r: Option<nat>)
    ensures r.Some? ==> r.value < |ids| && ids[r.value] == id && forall j :: 0 <= j < r.value ==> ids[j] != id
    ensures r.None? ==> forall j :: 0 <= j < |ids| ==> ids[j] != id
  {
    if ids == [] then None
    else if ids[0] == id then Some(0)
    else
      match IndexIn(ids[1..], id)
      case None => None
      case Some(k) => Some(k + 1)
  }

  /** getUser's search reads the ids the riders' recorders hold. */
  lemma {:induction false} IndexOfIdByIds(users: seq<ServerUser>, ids: seq<int>, id: int)
    requires |ids| == |users| && forall k :: 0 <= k < |users| ==> users[k].rider.rec.id == ids[k]
    ensures IndexOfId(users, id) == IndexIn(ids, id)
  {
  }

  /** A roster whose newest id was new to all the others finds its newest rider under it. */
  lemma {:induction false} NewcomerFound(p: ServerUserProvider, ids0: seq<int>, id: int)
    requires p.Valid() && p.ids == ids0 + [id] && IdsOk(ids0, id)
    ensures p.GetUser(id) == Some(p.users[|p.users| - 1])
  {
    IndexOfIdByIds(p.users, p.ids, id);
    NewestFound(ids0, id);
  }

  /** An id no earlier entry holds is found at the end. */
  lemma {:induction false} NewestFound(ids: seq<int>, id: int)
    requires forall k :: 0 <= k < |ids| ==> ids[k] != id
    ensures IndexIn(ids + [id], id) == Some(|ids|)
  {
    var all := ids + [id];
    if ids == [] {
      assert all == [id];
    } else {
      var rest := ids[1..];
      assert forall k :: 0 <= k < |rest| ==> rest[k] == ids[k + 1];
      NewestFound(rest, id);
      assert all[0] == ids[0] && all[1..] == rest + [id];
    }
  }

  // ---------------------------------------------------------------------
  // The AI coast rule of _tick

  /** The number of riders without the Ai flag. */
  function HumanCount(users: seq<User>): (r: nat)
    reads users
    ensures r <= |users|
  {
    if users == [] then 0 else (if Human(users[0]) then 1 else 0) + HumanCount(users[1..])
  }

  /** Every human has a last power of at most zero. */
  predicate HumansCoasting(users: seq<User>)
    reads users, Recs(users)
  {
    forall k :: 0 <= k < |users| && Human(users[k]) ==> users[k].rec.lastPower <= 0.0
  }

  /** allAisShouldCoast: at least two humans, and none of them pedalling. */
  predicate AisShouldCoast(users: seq<User>)
    reads users, Recs(users)
  {
    HumanCount(users) >= 2 && HumansCoasting(users)
  }

  lemma {:induction false} OneHuman(users: seq<User>)
    ensures HumanCount(users) >= 1 <==> exists i :: 0 <= i < |users| && Human(users[i])
  {
    if users != [] {
      var rest := users[1..];
      OneHuman(rest);
      assert forall i :: 0 <= i < |rest| ==> rest[i] == users[i + 1];
      if !Human(users[0]) && exists i :: 0 <= i < |users| && Human(users[i]) {
        var i :| 0 <= i < |users| && Human(users[i]);
        assert rest[i - 1] == users[i];
      }
    }
  }

  /** The count the coast rule tests is at least two exactly when two different riders are human. */
  lemma {:induction false} TwoHumans(users: seq<User>)
    ensures HumanCount(users) >= 2 <==> exists i, j :: 0 <= i < j < |users| && Human(users[i]) && Human(users[j])
  {
    if users != [] {
      var rest := users[1..];
      TwoHumans(rest);
      OneHuman(rest);
      assert forall i :: 0 <= i < |rest| ==> rest[i] == users[i + 1];
      if exists i, j :: 0 <= i < j < |users| && Human(users[i]) && Human(users[j]) {
        var i, j :| 0 <= i < j < |users| && Human(users[i]) && Human(users[j]);
        assert rest[j - 1] == users[j];
        if i > 0 {
          assert rest[i - 1] == users[i];
        }
      }
      if HumanCount(users) >= 2 && Human(users[0]) {
        var j :| 0 <= j < |rest| && Human(rest[j]);
        assert Human(users[0]) && Human(users[j + 1]);
      }
      if HumanCount(users) >= 2 && !Human(users[0]) {
        var i, j :| 0 <= i < j < |rest| && Human(rest[i]) && Human(rest[j]);
        assert Human(users[i + 1]) && Human(users[j + 1]);
      }
    }
  }

  /** The AIs coast exactly when two different humans are on the roster and no human has a positive last power. */
  lemma {:induction false} CoastRule(users: seq<User>)
    ensures AisShouldCoast(users) <==>
      (exists i, j :: 0 <= i < j < |users| && Human(users[i]) && Human(users[j])) && HumansCoasting(users)
  {
    TwoHumans(users);
  }

  /** The brain kept for an AI id, if any. */
  function BrainOf(brains: map<int, Brain>, id: int): Option<Brain>
  {
    if id in brains then Some(brains[id]) else None
  }

  predicate BrainsOk(brains: map<int, Brain>)
  {
    forall id :: id in brains ==> BrainOk(brains[id])
  }

  /** Keeping one more sound brain keeps every brain sound. */
  lemma BrainKept(brains: map<int, Brain>, id: int, b: Brain)
    requires BrainsOk(brains) && BrainOk(b)
    ensures BrainsOk(brains[id := b])
  {
  }

  /** The power _tick hands the AI rider `id` in state `st`, from its brain, handicap and distance. */
  function PowerFor(st: UserState, id: int, coast: bool, brains: map<int, Brain>, course: RideMap,
                    jitter: int -> real, other: int -> real): (r: real)
    requires BrainsOk(brains) && course.length != 0.0
    ensures r >= 0.0 && (coast ==> r == 0.0)
  {
    AiPower(coast, BrainOf(brains, id), st.handicap, st.position, course, jitter(id), other(id))
  }

  /** A recorder's state after notifyPower of `watts` at `tmNow`. */
  function Notified(rs: RecorderState, tmNow: int, watts: real): (r: RecorderState)
    ensures r.lastPower == watts && r.tmLastPower == tmNow && r.powerHistory == rs.powerHistory + [HistoryElement(tmNow, watts)]
    ensures r.id == rs.id && r.tmFinish == rs.tmFinish && r.tmLastPacket == rs.tmLastPacket
    ensures r.lastHrm == rs.lastHrm && r.tmLastHrm == rs.tmLastHrm
  {
    rs.(lastPower := watts, tmLastPower := tmNow, powerHistory := rs.powerHistory + [HistoryElement(tmNow, watts)])
  }

  /**
   * A recorder `rs` of a rider in state `st` after _tick's AI pass: an AI
   * rider takes PowerFor, any other rider is left alone.
   */
  function AiNotified(rs: RecorderState, st: UserState, tmNow: int, coast: bool, brains: map<int, Brain>, course: RideMap,
                      jitter: int -> real, other: int -> real): RecorderState
    requires BrainsOk(brains) && course.length != 0.0
  {
    if HasFlag(st.typeFlags, Ai) then Notified(rs, tmNow, PowerFor(st, rs.id, coast, brains, course, jitter, other))
    else rs
  }

  /** The recorders of a roster after _tick's AI pass, rider by rider. */
  function AiPassed(recs: seq<RecorderState>, states: seq<UserState>, tmNow: int, coast: bool, brains: map<int, Brain>,
                    course: RideMap, jitter: int -> real, other: int -> real): (r: seq<RecorderState>)
    requires |recs| == |states| && BrainsOk(brains) && course.length != 0.0
    ensures |r| == |recs|
  {
    if recs == [] then []
    else AiPassed(recs[..|recs| - 1], states[..|recs| - 1], tmNow, coast, brains, course, jitter, other)
         + [AiNotified(recs[|recs| - 1], states[|recs| - 1], tmNow, coast, brains, course, jitter, other)]
  }

  /** Rider k's recorder after the AI pass is AiNotified of its own recorder and state. */
  lemma {:induction false} AiPassedAt(recs: seq<RecorderState>, states: seq<UserState>, tmNow: int, coast: bool,
                                      brains: map<int, Brain>, course: RideMap, jitter: int -> real, other: int -> real, k: nat)
    requires |recs| == |states| && BrainsOk(brains) && course.length != 0.0 && k < |recs|
    ensures AiPassed(recs, states, tmNow, coast, brains, course, jitter, other)[k]
            == AiNotified(recs[k], states[k], tmNow, coast, brains, course, jitter, other)
    decreases |recs|
  {
    var n := |recs| - 1;
    if k < n {
      AiPassedAt(recs[..n], states[..n], tmNow, coast, brains, course, jitter, other, k);
    }
  }

  /** The AI pass tells powers only: no recorder's finish time moves. */
  lemma {:induction false} AiPassedFinish(recs: seq<RecorderState>, states: seq<UserState>, tmNow: int, coast: bool,
                       brains: map<int, Brain>, course: RideMap, jitter: int -> real, other: int -> real)
    requires |recs| == |states| && BrainsOk(brains) && course.length != 0.0
    ensures forall k :: 0 <= k < |recs| ==>
      AiPassed(recs, states, tmNow, coast, brains, course, jitter, other)[k].tmFinish == recs[k].tmFinish
  {
    forall k | 0 <= k < |recs|
      ensures AiPassed(recs, states, tmNow, coast, brains, course, jitter, other)[k].tmFinish == recs[k].tmFinish
    {
      AiPassedAt(recs, states, tmNow, coast, brains, course, jitter, other, k);
    }
  }

  /** Where each of the riders `live` sits on the roster `all`, and so where its recorder's state sits in recs. */
  lemma {:induction false} PlacesIn(live: seq<User>, all: seq<User>, recs: seq<RecorderState>, liveRecs: seq<RecorderState>) returns (at: seq<nat>)
    requires Within(live, all) && recs == RecorderStates(all) && liveRecs == RecorderStates(live)
    ensures |at| == |live|
    ensures forall k :: 0 <= k < |live| ==> at[k] < |all| && all[at[k]] == live[k] && recs[at[k]] == liveRecs[k]
  {
    at := [];
    while |at| < |live|
      invariant |at| <= |live|
      invariant forall k :: 0 <= k < |at| ==> at[k] < |all| && all[at[k]] == live[k] && recs[at[k]] == liveRecs[k]
    {
      var k := |at|;
      assert live[k] in all;
      var m :| 0 <= m < |all| && all[m] == live[k];
      at := at + [m];
    }
  }

  /** After the AI pass over the roster `all`, the recorders of the riders `live` on it keep their finish times. */
  lemma {:induction false} FinishKept(all: seq<User>, live: seq<User>, at: seq<nat>, recs0: seq<RecorderState>, sts0: seq<UserState>,
                   liveRecs0: seq<RecorderState>, tmNow: int, coast: bool, brains: map<int, Brain>, course: RideMap,
                   jitter: int -> real, other: int -> real)
    requires |recs0| == |all| && |sts0| == |all| && |liveRecs0| == |live| && |at| == |live|
    requires BrainsOk(brains) && course.length != 0.0
    requires forall k :: 0 <= k < |live| ==> at[k] < |all| && all[at[k]] == live[k] && recs0[at[k]] == liveRecs0[k]
    requires RecorderStates(all) == AiPassed(recs0, sts0, tmNow, coast, brains, course, jitter, other)
    ensures forall k :: 0 <= k < |live| ==> live[k].rec.tmFinish == liveRecs0[k].tmFinish
  {
    AiPassedFinish(recs0, sts0, tmNow, coast, brains, course, jitter, other);
    forall k | 0 <= k < |live|
      ensures live[k].rec.tmFinish == liveRecs0[k].tmFinish
    {
      assert RecorderStates(all)[at[k]] == live[k].rec.State();
    }
  }

  /** The game is neither a rider nor a recorder, so writing its fields leaves them alone and the other way round. */
  lemma {:induction false} OutsideRoster(g: ServerGame, riders: seq<User>)
    ensures (g as object) !in riders && (g as object) !in Recs(riders)
    ensures (g.provider as object) !in Recs(riders) && (g.provider.counter as object) !in Recs(riders)
    ensures (g.raceState as object) !in Recs(riders)
  {
  }

  /** The game, its roster, its counter and its race state are none of the riders, recorders and draft cycles a tick writes. */
  lemma {:induction false} OutsideTick(g: ServerGame, users: seq<User>)
    ensures (g as object) !in users && (g.provider as object) !in users && (g.provider.counter as object) !in users
    ensures (g as object) !in Recs(users) && (g.provider as object) !in Recs(users) && (g.provider.counter as object) !in Recs(users)
    ensures (g as object) !in Drafts(users) && (g.provider as object) !in Drafts(users)
    ensures (g.provider.counter as object) !in Drafts(users)
    ensures (g.raceState as object) !in users && (g.raceState as object) !in Recs(users) && (g.raceState as object) !in Drafts(users)
  {
  }

  /** No rider or recorder of a roster is the game itself. */
  lemma {:induction false} NotTheGame(g: ServerGame, users: seq<ServerUser>)
    ensures forall k :: 0 <= k < |users| ==> (users[k].rider as object) != g && (users[k].rider.rec as object) != g
  {
  }

  /** No rider is a recorder, so writing recorders leaves the riders alone. */
  lemma {:induction false} RidersAreNotRecorders(riders: seq<User>, roster: seq<User>)
    ensures forall k :: 0 <= k < |riders| ==> (riders[k] as object) !in Recs(roster)
  {
  }

  /** The same, rider by rider as the riders' own sequence lists them. */
  lemma {:induction false} NoRiderRecorded(riders: seq<User>)
    ensures forall u :: u in riders ==> (u as object) !in Recs(riders)
  {
  }

  /** A roster stays sound while its list, its counter and its riders' ids stay as they were. */
  twostate lemma ValidKept(p: ServerUserProvider)
    requires old(p.Valid()) && unchanged(p, p.counter)
    requires forall k :: 0 <= k < |p.users| ==> RidersOf(p.users)[k].rec.id == old(RidersOf(p.users)[k].rec.id)
    ensures p.Valid()
  {
    forall k | 0 <= k < |p.users|
      ensures p.users[k].rider.rec.id == p.ids[k]
    {
      assert RidersOf(p.users)[k] == p.users[k].rider;
    }
  }

  /** Every AI rider is live, so passing over the whole roster reaches the AI riders getUsers returns. */
  lemma {:induction false} AisAreLive(users: seq<ServerUser>, tmNow: int)
    ensures forall u :: u in users && HasFlag(u.rider.typeFlags, Ai) ==> u in Live(users, tmNow)
  {
    forall u | u in users && HasFlag(u.rider.typeFlags, Ai)
      ensures u in Live(users, tmNow)
    {
      assert HasFlag(u.rider.typeFlags, Ai | Bot) by {
        AiOrBot(u.rider.typeFlags);
      }
    }
  }

  /** An AI rider counts among the AIs and bots for getUsers. */
  lemma AiOrBot(flags: bv32)
    requires HasFlag(flags, Ai)
    ensures HasFlag(flags, Ai | Bot)
  {
  }

  /** The recorders of the AI riders of a roster: all that _tick's AI pass writes. */
  function AiRecs(users: seq<ServerUser>): (r: set<object>)
    reads RidersOf(users)
    ensures forall k :: 0 <= k < |users| && HasFlag(users[k].rider.typeFlags, Ai) ==> users[k].rider.rec in r
  {
    set k | 0 <= k < |users| && HasFlag(users[k].rider.typeFlags, Ai) :: users[k].rider.rec
  }

  /** An AI rider's recorder is among the recorders of the riders getUsers returns. */
  lemma {:induction false} AiRecsLive(users: seq<ServerUser>, tmNow: int)
    ensures AiRecs(users) <= set r | r in Recs(RidersOf(Live(users, tmNow)))
  {
    AisAreLive(users, tmNow);
    var live := Live(users, tmNow);
    forall o | o in AiRecs(users)
      ensures o in Recs(RidersOf(live))
    {
      var k :| 0 <= k < |users| && HasFlag(users[k].rider.typeFlags, Ai) && o == users[k].rider.rec;
      assert users[k] in live;
      var m :| 0 <= m < |live| && live[m] == users[k];
      assert Recs(RidersOf(live))[m] == users[k].rider.rec;
    }
  }

  /** The body of _tick's AI pass for one rider. */
  method NotifyOne(tmNow: int, users: seq<ServerUser>, i: nat, coast: bool, brains: map<int, Brain>, course: RideMap,
                   jitter: int -> real, other: int -> real)
    requires i < |users| && Roster(RidersOf(users))
    requires BrainsOk(brains) && course.length != 0.0
    modifies if HasFlag(users[i].rider.typeFlags, Ai) then {users[i].rider.rec} else {}
    ensures users[i].rider.rec.State()
      == AiNotified(old(users[i].rider.rec.State()), old(users[i].rider.State()), tmNow, coast, brains, course, jitter, other)
    ensures forall k :: 0 <= k < |users| && k != i ==> users[k].rider.rec.State() == old(users[k].rider.rec.State())
  {
    var u := users[i];
    if HasFlag(u.rider.typeFlags, Ai) {
      u.NotifyPower(tmNow, PowerFor(u.rider.State(), u.rider.rec.id, coast, brains, course, jitter, other));
    }
    forall k | 0 <= k < |users| && k != i
      ensures users[k].rider.rec.State() == old(users[k].rider.rec.State())
    {
      RosterApart(RidersOf(users));
      assert RidersOf(users)[k] == users[k].rider && RidersOf(users)[i] == u.rider;
    }
  }

  /** _tick's AI pass: each AI rider in turn is told its power; who getUsers returns stays the same. */
  method NotifyAis(tmNow: int, users: seq<ServerUser>, coast: bool, brains: map<int, Brain>, course: RideMap,
                   jitter: int -> real, other: int -> real)
    requires Roster(RidersOf(users))
    requires BrainsOk(brains) && course.length != 0.0
    modifies AiRecs(users)
    ensures RecorderStates(RidersOf(users))
      == AiPassed(old(RecorderStates(RidersOf(users))), old(States(RidersOf(users))), tmNow, coast, brains, course, jitter, other)
    ensures forall k :: 0 <= k < |users| ==> users[k].rider.rec.id == old(users[k].rider.rec.id)
    ensures Live(users, tmNow) == old(Live(users, tmNow))
    ensures unchanged(RidersOf(users))
  {
    ghost var riders := RidersOf(users);
    NoRiderRecorded(riders);
    ghost var recs0, sts0 := RecorderStates(riders), States(riders);
    RidersAreNotRecorders(riders, riders);
    NotifyLive(tmNow, users, coast, brains, course, jitter, other);
    forall k | 0 <= k < |users|
      ensures users[k].rider.rec.State() == AiNotified(recs0[k], sts0[k], tmNow, coast, brains, course, jitter, other)
    {
      assert riders[k] == users[k].rider;
    }
    AiPassedOf(users, recs0, sts0, tmNow, coast, brains, course, jitter, other);
  }

  /** The loop of the AI pass: rider after rider, in roster order. */
  method NotifyEach(tmNow: int, users: seq<ServerUser>, coast: bool, brains: map<int, Brain>, course: RideMap,
                    jitter: int -> real, other: int -> real)
    requires Roster(RidersOf(users))
    requires BrainsOk(brains) && course.length != 0.0
    modifies AiRecs(users)
    ensures forall k :: 0 <= k < |users| ==>
      users[k].rider.rec.State()
      == AiNotified(old(users[k].rider.rec.State()), old(users[k].rider.State()), tmNow, coast, brains, course, jitter, other)
    ensures forall k :: 0 <= k < |users| ==> users[k].rider.rec.id == old(users[k].rider.rec.id)
  {
    var i := 0;
    while i < |users|
      invariant 0 <= i <= |users|
      invariant forall k :: 0 <= k < i ==>
        users[k].rider.rec.State()
        == AiNotified(old(users[k].rider.rec.State()), old(users[k].rider.State()), tmNow, coast, brains, course, jitter, other)
      invariant forall k :: i <= k < |users| ==> users[k].rider.rec.State() == old(users[k].rider.rec.State())
      invariant forall k :: 0 <= k < |users| ==> users[k].rider.rec.id == old(users[k].rider.rec.id)
    {
      NotifyOne(tmNow, users, i, coast, brains, course, jitter, other);
      i := i + 1;
    }
  }

  /** The AI pass seen from getUsers: the pass moves no packet or finish time, so the same riders stay live. */
  method NotifyLive(tmNow: int, users: seq<ServerUser>, coast: bool, brains: map<int, Brain>, course: RideMap,
                    jitter: int -> real, other: int -> real)
    requires Roster(RidersOf(users))
    requires BrainsOk(brains) && course.length != 0.0
    modifies AiRecs(users)
    ensures forall k :: 0 <= k < |users| ==>
      users[k].rider.rec.State()
      == AiNotified(old(users[k].rider.rec.State()), old(users[k].rider.State()), tmNow, coast, brains, course, jitter, other)
    ensures forall k :: 0 <= k < |users| ==> users[k].rider.rec.id == old(users[k].rider.rec.id)
    ensures Live(users, tmNow) == old(Live(users, tmNow))
  {
    LiveKept(users, tmNow);
    ghost var flags := LiveFlags(users, tmNow);
    LiveFlagsAll(users, tmNow);
    RidersAreNotRecorders(RidersOf(users), RidersOf(users));
    NotifyEach(tmNow, users, coast, brains, course, jitter, other);
    forall k | 0 <= k < |users|
      ensures IsLive(users[k], tmNow) == flags[k]
    {
      var r := users[k].rider.rec;
      assert r.tmLastPacket == old(r.tmLastPacket) && r.tmFinish == old(r.tmFinish);
    }
    SameFlags(users, tmNow, flags);
    LiveKept(users, tmNow);
  }

  /** Recorders that took the AI pass one by one are AiPassed over the roster. */
  lemma {:induction false} AiPassedOf(users: seq<ServerUser>, recs0: seq<RecorderState>, sts0: seq<UserState>, tmNow: int, coast: bool,
                   brains: map<int, Brain>, course: RideMap, jitter: int -> real, other: int -> real)
    requires BrainsOk(brains) && course.length != 0.0 && |recs0| == |users| && |sts0| == |users|
    requires forall k :: 0 <= k < |users| ==>
      users[k].rider.rec.State() == AiNotified(recs0[k], sts0[k], tmNow, coast, brains, course, jitter, other)
    ensures RecorderStates(RidersOf(users)) == AiPassed(recs0, sts0, tmNow, coast, brains, course, jitter, other)
  {
    forall k | 0 <= k < |users|
      ensures RecorderStates(RidersOf(users))[k] == AiPassed(recs0, sts0, tmNow, coast, brains, course, jitter, other)[k]
    {
      AiPassedAt(recs0, sts0, tmNow, coast, brains, course, jitter, other, k);
      assert RidersOf(users)[k] == users[k].rider;
    }
  }

  // ---------------------------------------------------------------------
  // The race lifecycle of _tick

  /** One tick's outcome: the new mode, whether physics ran, whether the game stopped. */
  datatype StepResult = StepResult(mode: CurrentRaceState, physics: bool, stops: bool)

  /**
   * The mode _tick moves to, from the previous mode, the clock, the
   * scheduled start, the two finish predicates and the seconds since the
   * last unfinished human was seen.
   */
  function LifecycleStep(last: CurrentRaceState, tmNow: int, scheduled: int, humansDone: bool, racersDone: bool,
                         sSince: real): (r: StepResult)
    ensures r.mode == PreRace <==> tmNow < scheduled
    ensures tmNow < scheduled ==> !r.physics && !r.stops
    ensures r.stops ==> last == Racing && r.mode == PostRace && !r.physics
    ensures last == PreRace && tmNow >= scheduled ==> r.mode == Racing && r.physics
    ensures last == Racing && tmNow >= scheduled && !humansDone ==> r.mode == Racing && r.physics && !r.stops
    ensures last == Racing && tmNow >= scheduled && humansDone ==>
      (r.stops <==> racersDone || sSince >= 30.0)
      && (r.physics <==> !r.stops)
      && (r.mode == PostRace <==> r.stops || sSince >= 300.0)
    ensures last == PostRace && tmNow >= scheduled ==> r == StepResult(PostRace, false, false)
  {
    if tmNow < scheduled then StepResult(PreRace, false, false)
    else
      match last
      case PreRace => StepResult(Racing, true, false)
      case Racing =>
        if !humansDone then StepResult(Racing, true, false)
        else if racersDone || sSince >= 30.0 then StepResult(PostRace, false, true)
        else StepResult(if sSince >= 300.0 then PostRace else Racing, true, false)
      case PostRace => StepResult(PostRace, false, false)
  }

  /**
   * The 300-second rule never fires: it sits behind the 30-second one, so
   * from Racing the race is post-race exactly when it stops.
   */
  lemma {:induction false} FiveMinuteRuleUnreachable(tmNow: int, scheduled: int, humansDone: bool, racersDone: bool, sSince: real)
    ensures LifecycleStep(Racing, tmNow, scheduled, humansDone, racersDone, sSince).mode == PostRace
            <==> LifecycleStep(Racing, tmNow, scheduled, humansDone, racersDone, sSince).stops
  {
  }

  /** What a tick observes of the race besides the mode. */
  datatype Observation = Observation(tmNow: int, humansDone: bool, racersDone: bool, sSince: real)

  /** The mode after a run of ticks against a fixed scheduled start. */
  function Run(last: CurrentRaceState, scheduled: int, obs: seq<Observation>): CurrentRaceState
    decreases |obs|
  {
    if obs == [] then last
    else
      var o := obs[0];
      Run(LifecycleStep(last, o.tmNow, scheduled, o.humansDone, o.racersDone, o.sSince).mode, scheduled, obs[1..])
  }

  /** Once past the scheduled start, post-race is for good. */
  lemma {:induction false} PostRaceAbsorbing(scheduled: int, obs: seq<Observation>)
    requires forall k :: 0 <= k < |obs| ==> obs[k].tmNow >= scheduled
    ensures Run(PostRace, scheduled, obs) == PostRace
  {
    if obs != [] {
      PostRaceAbsorbing(scheduled, obs[1..]);
    }
  }

  /** With the clock staying past the scheduled start, a started race never returns to pre-race. */
  lemma {:induction false} NeverBackToPreRace(last: CurrentRaceState, scheduled: int, obs: seq<Observation>)
    requires forall k :: 0 <= k < |obs| ==> obs[k].tmNow >= scheduled
    requires last != PreRace || obs != []
    ensures Run(last, scheduled, obs) != PreRace
    decreases |obs|
  {
    if obs != [] {
      var o := obs[0];
      var next := LifecycleStep(last, o.tmNow, scheduled, o.humansDone, o.racersDone, o.sSince).mode;
      NeverBackToPreRace(next, scheduled, obs[1..]);
    }
  }

  /** Moving the clock before the scheduled start returns any mode to pre-race. */
  lemma {:induction false} EarlyTickIsPreRace(last: CurrentRaceState, scheduled: int, obs: seq<Observation>)
    requires obs != [] && obs[|obs| - 1].tmNow < scheduled
    ensures Run(last, scheduled, obs) == PreRace
    decreases |obs|
  {
    if |obs| > 1 {
      var o := obs[0];
      var next := LifecycleStep(last, o.tmNow, scheduled, o.humansDone, o.racersDone, o.sSince).mode;
      assert obs[1..][|obs[1..]| - 1] == obs[|obs| - 1];
      EarlyTickIsPreRace(next, scheduled, obs[1..]);
    }
  }

  // ---------------------------------------------------------------------
  // ServerGame

  /** Every live rider is one of the roster's, with its recorder and draftee cycle. */
  lemma {:induction false} LiveWithin(users: seq<ServerUser>, tmNow: int)
    ensures var rs := RidersOf(Live(users, tmNow));
      forall k :: 0 <= k < |rs| ==>
        rs[k] in RidersOf(users) && rs[k].rec in Recs(RidersOf(users)) && rs[k].draft in Drafts(RidersOf(users))
  {
    var live := Live(users, tmNow);
    var rs := RidersOf(live);
    forall k | 0 <= k < |rs|
      ensures rs[k] in RidersOf(users) && rs[k].rec in Recs(RidersOf(users)) && rs[k].draft in Drafts(RidersOf(users))
    {
      assert live[k] in users;
      var j :| 0 <= j < |users| && users[j] == live[k];
      assert RidersOf(users)[j] == rs[k];
      assert Recs(RidersOf(users))[j] == rs[k].rec;
      assert Drafts(RidersOf(users))[j] == rs[k].draft;
    }
  }

  /** The live riders can be ticked whenever the whole roster can. */
  lemma {:induction false} LiveRideable(users: seq<ServerUser>, tmNow: int, course: RideMap)
    requires Rideable(RidersOf(users), course)
    ensures Rideable(RidersOf(Live(users, tmNow)), course)
  {
    LiveWithin(users, tmNow);
  }

  /** Each rider of `riders`, with its recorder and draftee cycle, belongs to `roster`. */
  predicate Within(riders: seq<User>, roster: seq<User>)
  {
    forall k :: 0 <= k < |riders| ==> riders[k] in roster && riders[k].rec in Recs(roster) && riders[k].draft in Drafts(roster)
  }

  /** The riders of getUsers, with what ticking them needs: distinct, rideable, and all on the roster. */
  lemma {:induction false} LiveRiders(users: seq<ServerUser>, tmNow: int, course: RideMap)
    requires Roster(RidersOf(users)) && Rideable(RidersOf(users), course)
    ensures var riders := RidersOf(Live(users, tmNow));
      Roster(riders) && Rideable(riders, course)
      && Within(riders, RidersOf(users))
  {
    var live := Live(users, tmNow);
    LiveRoster(users, tmNow);
    LiveRideable(users, tmNow, course);
    var riders := RidersOf(live);
    var all := RidersOf(users);
    forall k | 0 <= k < |riders|
      ensures riders[k] in all && riders[k].rec in Recs(all) && riders[k].draft in Drafts(all)
    {
      assert riders[k] == live[k].rider && live[k] in users;
      var j :| 0 <= j < |users| && users[j] == live[k];
      assert all[j] == riders[k] && Recs(all)[j] == riders[k].rec && Drafts(all)[j] == riders[k].draft;
    }
  }

  /** The variable fields of a ServerGame, as one value. */
  datatype GameFields = GameFields(aiBrains: map<int, Brain>, tmLastAiUpdate: int, tmScheduledRaceStart: int,
                                   tmRaceStart: int, lastMode: CurrentRaceState, stopped: bool)

  /** One AI rider as the Ai-only pass of _tick sees it. */
  datatype AiSeat = AiSeat(sub: string, name: string, brain: Brain)

  class ServerGame {
    const provider: ServerUserProvider
    const raceState: RaceState
    const name: string
    const gameId: string
    var aiBrains: map<int, Brain>
    var tmLastAiUpdate: int
    var tmScheduledRaceStart: int
    var tmRaceStart: int
    var lastMode: CurrentRaceState
    var stopped: bool

    /** The game's own variable fields. */
    function Fields(): GameFields
      reads this
    {
      GameFields(aiBrains, tmLastAiUpdate, tmScheduledRaceStart, tmRaceStart, lastMode, stopped)
    }

    /** A sound roster, a course of non-zero length and well-formed brains. */
    ghost predicate Valid()
      reads this, provider, provider.counter, Recs(RidersOf(provider.users))
    {
      provider.Valid() && raceState.course.length != 0.0 && BrainsOk(aiBrains)
    }

    /**
     * The constructor: an empty roster on the shared counter, a race state
     * for the course, then one AI rider per seat with the given handicap
     * (300 times the source's distance-based boost, whose pow() is not
     * modelled) and its brain kept under its id.
     */
    constructor(course: RideMap, gameId: string, name: string, counter: IdCounter, seats: seq<AiSeat>,
                aiHandicap: real, tmNow: int)
      requires counter.next >= 0 && course.length != 0.0
      requires forall k :: 0 <= k < |seats| ==> BrainOk(seats[k].brain)
      modifies counter
      ensures Valid() && fresh(provider) && fresh(raceState) && provider.counter == counter
      ensures raceState.course == course && this.gameId == gameId && this.name == name
      ensures |provider.users| == |seats| && counter.next == old(counter.next) + |seats|
      ensures forall k :: 0 <= k < |seats| ==>
        var u := provider.users[k].rider;
        u.name == seats[k].name && u.handicap == aiHandicap && u.typeFlags == Remote | Ai
        && BrainOf(aiBrains, u.rec.id) == Some(seats[k].brain)
      ensures tmScheduledRaceStart == -1 && tmRaceStart == -1 && lastMode == PreRace && !stopped
      ensures tmLastAiUpdate == tmNow
    {
      provider := new ServerUserProvider(counter);
      raceState := new RaceState(course, gameId, tmNow);
      this.name := name;
      this.gameId := gameId;
      aiBrains := map[];
      tmLastAiUpdate := tmNow;
      tmScheduledRaceStart := -1;
      tmRaceStart := -1;
      lastMode := PreRace;
      stopped := false;
      new;
      SeatAis(seats, aiHandicap, tmNow);
    }

    /** The constructor's loop: one AI rider per seat, in order, each with its brain. */
    method SeatAis(seats: seq<AiSeat>, aiHandicap: real, tmNow: int)
      requires Valid() && provider.users == []
      requires forall k :: 0 <= k < |seats| ==> BrainOk(seats[k].brain)
      modifies this, provider, provider.counter
      ensures Valid() && |provider.users| == |seats| && provider.counter.next == old(provider.counter.next) + |seats|
      ensures forall k :: 0 <= k < |seats| ==>
        var u := provider.users[k].rider;
        u.name == seats[k].name && u.handicap == aiHandicap && u.typeFlags == Remote | Ai
        && BrainOf(aiBrains, u.rec.id) == Some(seats[k].brain)
      ensures Fields() == old(Fields()).(aiBrains := aiBrains)
    {
      var x := 0;
      while x < |seats|
        invariant 0 <= x <= |seats|
        invariant Valid() && Seated(seats, aiHandicap, x)
        invariant provider.counter.next == old(provider.counter.next) + x
        invariant Fields() == old(Fields()).(aiBrains := aiBrains)
      {
        SeatNext(seats, aiHandicap, tmNow, x);
        x := x + 1;
      }
      forall k | 0 <= k < |seats|
        ensures BrainOf(aiBrains, provider.users[k].rider.rec.id) == Some(seats[k].brain)
      {
        assert provider.users[k].rider.rec.id == provider.ids[k];
      }
    }

    /** The first `x` riders are the first `x` seats, each with its brain kept under its id. */
    ghost predicate Seated(seats: seq<AiSeat>, aiHandicap: real, x: nat)
      reads this, provider, RidersOf(provider.users)
    {
      x <= |seats| && |provider.users| == x && |provider.ids| == x
      && forall k :: 0 <= k < x ==>
        var u := provider.users[k].rider;
        u.name == seats[k].name && u.handicap == aiHandicap && u.typeFlags == Remote | Ai
        && provider.ids[k] in aiBrains && aiBrains[provider.ids[k]] == seats[k].brain
    }

    /** One turn of the loop in the constructor: the next seat's AI rider joins. */
    method SeatNext(seats: seq<AiSeat>, aiHandicap: real, tmNow: int, x: nat)
      requires Valid() && x < |seats| && Seated(seats, aiHandicap, x) && BrainOk(seats[x].brain)
      modifies this, provider, provider.counter
      ensures Valid() && Seated(seats, aiHandicap, x + 1)
      ensures provider.counter.next == old(provider.counter.next) + 1
      ensures Fields() == old(Fields()).(aiBrains := aiBrains)
    {
      ghost var ids0, users0 := provider.ids, provider.users;
      var aiId, su := AddAi(seats[x], aiHandicap, tmNow);
      forall k | 0 <= k < x
        ensures var u := provider.users[k].rider;
          u.name == seats[k].name && u.handicap == aiHandicap && u.typeFlags == Remote | Ai
          && provider.ids[k] in aiBrains && aiBrains[provider.ids[k]] == seats[k].brain
      {
        assert provider.users[k] == users0[k];
        assert provider.ids[k] == ids0[k] && ids0[k] != aiId;
      }
    }

    method AddAi(seat: AiSeat, aiHandicap: real, tmNow: int) returns (aiId: int, su: ServerUser)
      requires Valid() && BrainOk(seat.brain)
      modifies this, provider, provider.counter
      ensures Valid()
      ensures aiId == old(provider.counter.next) && provider.counter.next == aiId + 1
      ensures aiBrains == old(aiBrains)[aiId := seat.brain]
      ensures provider.users == old(provider.users) + [su] && provider.ids == old(provider.ids) + [aiId]
      ensures su.rider.name == seat.name && su.rider.handicap == aiHandicap && su.rider.typeFlags == Remote | Ai
      ensures tmScheduledRaceStart == old(tmScheduledRaceStart) && tmRaceStart == old(tmRaceStart)
      ensures lastMode == old(lastMode) && stopped == old(stopped) && tmLastAiUpdate == old(tmLastAiUpdate)
    {
      aiId, su := provider.AddUser(ConnectionRequest(seat.sub, seat.name, aiHandicap), false, Ai, tmNow);
      KeepBrain(aiId, seat.brain);
    }

    /** The brain of a new AI rider, kept under its id. */
    method KeepBrain(id: int, brain: Brain)
      requires Valid() && BrainOk(brain)
      modifies this
      ensures Valid() && Fields() == old(Fields()).(aiBrains := old(aiBrains)[id := brain])
    {
      BrainKept(aiBrains, id, brain);
      aiBrains := aiBrains[id := brain];
    }

    /** stop: the game and its race state stop. */
    method Stop()
      modifies this, raceState
      ensures stopped && raceState.stopped
      ensures raceState.tmUnfinishedHuman == old(raceState.tmUnfinishedHuman)
      ensures lastMode == old(lastMode) && tmRaceStart == old(tmRaceStart) && tmScheduledRaceStart == old(tmScheduledRaceStart)
      ensures aiBrains == old(aiBrains) && tmLastAiUpdate == old(tmLastAiUpdate)
    {
      stopped := true;
      raceState.Stop();
    }

    method ScheduleRaceStartTime(tmWhen: int)
      modifies this
      ensures tmScheduledRaceStart == tmWhen
      ensures lastMode == old(lastMode) && tmRaceStart == old(tmRaceStart) && stopped == old(stopped)
      ensures aiBrains == old(aiBrains) && tmLastAiUpdate == old(tmLastAiUpdate)
    {
      tmScheduledRaceStart := tmWhen;
    }

    /**
     * addUser: a human joins through the roster; during post-race the
     * rider counts as finished now, at the end of the course; the first
     * rider without a schedule sets the start 5 s ahead.
     */
    method AddUser(tmNow: int, ccr: ConnectionRequest, hasSocket: bool) returns (newId: int, ghost su: ServerUser)
      requires Valid()
      modifies this, provider, provider.counter
      ensures Valid()
      ensures newId == old(provider.counter.next) && provider.users == old(provider.users) + [su] && fresh(su)
      ensures provider.GetUser(newId) == Some(su) && su.rider.rec.id == newId
      ensures su.rider.name == ccr.riderName && su.rider.handicap == ccr.riderHandicap && su.rider.typeFlags == Remote
      ensures old(lastMode) == PostRace ==> su.rider.rec.tmFinish == tmNow && su.rider.position == raceState.course.length
      ensures old(lastMode) != PostRace ==> su.rider.rec.tmFinish == -1
      ensures tmScheduledRaceStart == if old(tmScheduledRaceStart) < 0 then tmNow + 5000 else old(tmScheduledRaceStart)
      ensures lastMode == old(lastMode) && tmRaceStart == old(tmRaceStart) && stopped == old(stopped)
      ensures aiBrains == old(aiBrains) && tmLastAiUpdate == old(tmLastAiUpdate)
    {
      var added;
      newId, added := provider.AddUser(ccr, hasSocket, 0, tmNow);
      su := added;
      ghost var ids0 := old(provider.ids);
      Admit(newId, tmNow);
      NewcomerFound(provider, ids0, newId);
      // (the tick it schedules is the caller's next Tick)
    }

    /** The rest of addUser, once the newest rider holds `newId`. */
    method Admit(newId: int, tmNow: int)
      requires Valid() && provider.users != []
      requires provider.GetUser(newId) == Some(provider.users[|provider.users| - 1])
      modifies this, provider.users[|provider.users| - 1].rider, provider.users[|provider.users| - 1].rider.rec
      ensures Valid()
      ensures var u := provider.users[|provider.users| - 1];
        u.rider.rec.State() == (if old(lastMode) == PostRace then old(u.rider.rec.State()).(tmFinish := tmNow) else old(u.rider.rec.State()))
        && u.rider.State() == (if old(lastMode) == PostRace then old(u.rider.State()).(position := raceState.course.length) else old(u.rider.State()))
      ensures tmScheduledRaceStart == if old(tmScheduledRaceStart) < 0 then tmNow + 5000 else old(tmScheduledRaceStart)
      ensures lastMode == old(lastMode) && tmRaceStart == old(tmRaceStart) && stopped == old(stopped)
      ensures aiBrains == old(aiBrains) && tmLastAiUpdate == old(tmLastAiUpdate)
    {
      ClaimIfPostRace(newId, tmNow);
      if tmScheduledRaceStart < 0 {
        ScheduleStart(tmNow + 5000);
      }
    }

    /** The first half of admission: a newcomer arriving after the race is finished on the spot. */
    method ClaimIfPostRace(newId: int, tmNow: int)
      requires Valid() && provider.users != []
      requires provider.GetUser(newId) == Some(provider.users[|provider.users| - 1])
      modifies provider.users[|provider.users| - 1].rider, provider.users[|provider.users| - 1].rider.rec
      ensures Valid()
      ensures var u := provider.users[|provider.users| - 1];
        u.rider.rec.State() == (if lastMode == PostRace then old(u.rider.rec.State()).(tmFinish := tmNow) else old(u.rider.rec.State()))
        && u.rider.State() == (if lastMode == PostRace then old(u.rider.State()).(position := raceState.course.length) else old(u.rider.State()))
    {
      var found := provider.GetUser(newId);
      if found.Some? && lastMode == PostRace {
        ClaimFinished(found.value, tmNow);
      }
    }

    /** The race start, scheduled for `tm`. */
    method ScheduleStart(tm: int)
      requires Valid()
      modifies this
      ensures Valid() && Fields() == old(Fields()).(tmScheduledRaceStart := tm)
    {
      tmScheduledRaceStart := tm;
    }

    /**
     * _tick: nothing once stopped; otherwise, more than 250 ms after the
     * last AI update, the AI riders are told their power, then the live
     * riders go through one lifecycle step. The AI pass changes only power
     * readings, so the step is stated on the riders live before the tick.
     * Riders getUsers leaves out keep their states and recorders.
     */
    method Tick(tmNow: int, jitter: int -> real, other: int -> real, slopeFactor: real -> real)
      returns (ghost before: seq<UserState>, ghost after: seq<UserState>, ghost powers: seq<real>)
      requires Valid() && Rideable(RidersOf(provider.users), raceState.course)
      requires forall s :: slopeFactor(s) >= 0.0
      modifies this, raceState, RidersOf(Live(provider.users, tmNow)), Recs(RidersOf(Live(provider.users, tmNow))),
               Drafts(RidersOf(Live(provider.users, tmNow)))
      ensures Valid()
      ensures aiBrains == old(aiBrains) && tmScheduledRaceStart == old(tmScheduledRaceStart)
      ensures old(stopped) ==>
        stopped && lastMode == old(lastMode) && tmRaceStart == old(tmRaceStart) && tmLastAiUpdate == old(tmLastAiUpdate)
        && raceState.tmUnfinishedHuman == old(raceState.tmUnfinishedHuman)
        && forall k :: 0 <= k < |provider.users| ==>
             provider.users[k].rider.State() == old(provider.users[k].rider.State())
             && provider.users[k].rider.rec.State() == old(provider.users[k].rider.rec.State())
      ensures !old(stopped) ==> tmLastAiUpdate == if tmNow - old(tmLastAiUpdate) > 250 then tmNow else old(tmLastAiUpdate)
      ensures !old(stopped) ==>
        var live := old(RidersOf(Live(provider.users, tmNow)));
        var step := LifecycleStep(old(lastMode), tmNow, old(tmScheduledRaceStart),
                                  old(AllHumansFinished(live, raceState.course.length)),
                                  old(AllRacersFinished(live, raceState.course.length)),
                                  old(raceState.SecondsSinceLastNonFinishedHuman(tmNow)));
        var ticks := step.physics && !old(raceState.stopped);
        |before| == |live| && |after| == |live| && |powers| == |live|
        && (forall k :: 0 <= k < |live| ==>
              before[k] == old(live[k].State()) && after[k] == live[k].State() && powers[k] == live[k].rec.lastPower)
        && lastMode == step.mode && stopped == step.stops
        && tmRaceStart == (if tmNow < old(tmScheduledRaceStart) then -1 else if old(tmRaceStart) < 0 then tmNow else old(tmRaceStart))
        && (ticks ==> AllTicked(before, after, tmNow, raceState.course.length))
        && (ticks ==> TickedInOrder(live, before, after, powers, tmNow, raceState.course, slopeFactor))
        && (!ticks ==> after == before)
        && raceState.tmUnfinishedHuman == (if ticks && HumanStillRiding(live, |live|) then tmNow else old(raceState.tmUnfinishedHuman))
        && forall k :: 0 <= k < |live| ==>
             live[k].rec.tmFinish == FinishAfter(old(live[k].rec.tmFinish), before[k].position, after[k].position,
                                                 raceState.course.length, tmNow)
    {
      before, after, powers := [], [], [];
      if stopped {
        return;
      }
      ghost var live := RidersOf(Live(provider.users, tmNow));
      ghost var length := raceState.course.length;
      before, after, powers := TickRunning(tmNow, jitter, other, slopeFactor, live, AllHumansFinished(live, length),
                                           AllRacersFinished(live, length), raceState.SecondsSinceLastNonFinishedHuman(tmNow));
    }

    /**
     * _tick of a game not yet stopped, over the riders live when it starts;
     * humansDone, racersDone and sSince are what the lifecycle step reads
     * of them and of the race state then.
     */
    method TickRunning(tmNow: int, jitter: int -> real, other: int -> real, slopeFactor: real -> real, ghost live: seq<User>,
                       ghost humansDone: bool, ghost racersDone: bool, ghost sSince: real)
      returns (ghost before: seq<UserState>, ghost after: seq<UserState>, ghost powers: seq<real>)
      requires Valid() && Rideable(RidersOf(provider.users), raceState.course) && !stopped
      requires forall s :: slopeFactor(s) >= 0.0
      requires live == RidersOf(Live(provider.users, tmNow))
      requires humansDone == AllHumansFinished(live, raceState.course.length)
      requires racersDone == AllRacersFinished(live, raceState.course.length)
      requires sSince == raceState.SecondsSinceLastNonFinishedHuman(tmNow)
      modifies this, raceState, live, Recs(live), Drafts(live)
      ensures Valid()
      ensures aiBrains == old(aiBrains) && tmScheduledRaceStart == old(tmScheduledRaceStart)
      ensures tmLastAiUpdate == if tmNow - old(tmLastAiUpdate) > 250 then tmNow else old(tmLastAiUpdate)
      ensures |before| == |live| && |after| == |live| && |powers| == |live|
      ensures forall k :: 0 <= k < |live| ==>
        before[k] == old(live[k].State()) && after[k] == live[k].State() && powers[k] == live[k].rec.lastPower
      ensures var step := LifecycleStep(old(lastMode), tmNow, old(tmScheduledRaceStart), humansDone, racersDone, sSince);
        var ticks := step.physics && !old(raceState.stopped);
        lastMode == step.mode && stopped == step.stops
        && tmRaceStart == (if tmNow < old(tmScheduledRaceStart) then -1 else if old(tmRaceStart) < 0 then tmNow else old(tmRaceStart))
        && (ticks ==> AllTicked(before, after, tmNow, raceState.course.length))
        && (ticks ==> TickedInOrder(live, before, after, powers, tmNow, raceState.course, slopeFactor))
        && (!ticks ==> after == before)
        && raceState.tmUnfinishedHuman == (if ticks && HumanStillRiding(live, |live|) then tmNow else old(raceState.tmUnfinishedHuman))
      ensures forall k :: 0 <= k < |live| ==>
        live[k].rec.tmFinish == FinishAfter(old(live[k].rec.tmFinish), before[k].position, after[k].position,
                                            raceState.course.length, tmNow)
    {
      AiRecsLive(provider.users, tmNow);
      AiStep(tmNow, jitter, other, live, humansDone, racersDone, sSince);
      before, after, powers := LiveStep(tmNow, slopeFactor, live, humansDone, racersDone, sSince);
    }

    /**
     * _tick's AI half: more than 250 ms after the last AI update, the AI
     * pass. Only power readings change, so the live riders and what the
     * lifecycle step reads from them are as they were, getUsers keeps the
     * same riders, and those it leaves out keep their recorders.
     */
    method AiStep(tmNow: int, jitter: int -> real, other: int -> real, ghost live: seq<User>,
                  ghost humansDone: bool, ghost racersDone: bool, ghost sSince: real)
      requires Valid() && Rideable(RidersOf(provider.users), raceState.course)
      requires live == RidersOf(Live(provider.users, tmNow))
      requires humansDone == AllHumansFinished(live, raceState.course.length)
      requires racersDone == AllRacersFinished(live, raceState.course.length)
      requires sSince == raceState.SecondsSinceLastNonFinishedHuman(tmNow)
      modifies this, AiRecs(provider.users)
      ensures Valid() && Rideable(RidersOf(provider.users), raceState.course)
      ensures aiBrains == old(aiBrains) && tmScheduledRaceStart == old(tmScheduledRaceStart) && tmRaceStart == old(tmRaceStart)
      ensures lastMode == old(lastMode) && stopped == old(stopped)
      ensures tmLastAiUpdate == if tmNow - old(tmLastAiUpdate) > 250 then tmNow else old(tmLastAiUpdate)
      ensures unchanged(provider, raceState) && live == RidersOf(Live(provider.users, tmNow))
      ensures forall k :: 0 <= k < |live| ==> live[k].State() == old(live[k].State())
      ensures forall k :: 0 <= k < |live| ==> live[k].rec.tmFinish == old(live[k].rec.tmFinish)
      ensures humansDone == AllHumansFinished(live, raceState.course.length)
      ensures racersDone == AllRacersFinished(live, raceState.course.length)
      ensures sSince == raceState.SecondsSinceLastNonFinishedHuman(tmNow)
    {
      if tmNow - tmLastAiUpdate > 250 {
        UpdateLiveAis(tmNow, jitter, other, live);
      }
    }

    /** The AI update seen from the riders getUsers returns: their states and finish times stay as they were. */
    method UpdateLiveAis(tmNow: int, jitter: int -> real, other: int -> real, ghost live: seq<User>)
      requires Valid() && Rideable(RidersOf(provider.users), raceState.course)
      requires live == RidersOf(Live(provider.users, tmNow))
      modifies this, AiRecs(provider.users)
      ensures Valid() && Rideable(RidersOf(provider.users), raceState.course)
      ensures Fields() == old(Fields()).(tmLastAiUpdate := tmNow) && unchanged(provider, raceState)
      ensures RidersOf(Live(provider.users, tmNow)) == live
      ensures forall k :: 0 <= k < |live| ==> live[k].State() == old(live[k].State())
      ensures forall k :: 0 <= k < |live| ==> live[k].rec.tmFinish == old(live[k].rec.tmFinish)
      ensures AllHumansFinished(live, raceState.course.length) == old(AllHumansFinished(live, raceState.course.length))
      ensures AllRacersFinished(live, raceState.course.length) == old(AllRacersFinished(live, raceState.course.length))
    {
      ghost var all := RidersOf(provider.users);
      ghost var recs0, sts0, liveRecs0 := RecorderStates(all), States(all), RecorderStates(live);
      ghost var coast := AisShouldCoast(live);
      LiveRiders(provider.users, tmNow, raceState.course);
      ghost var at := PlacesIn(live, all, recs0, liveRecs0);
      UpdateAis(tmNow, jitter, other, live);
      FinishKept(all, live, at, recs0, sts0, liveRecs0, tmNow, coast, aiBrains, raceState.course, jitter, other);
    }

    /**
     * The lifecycle step of _tick over the riders getUsers returns now,
     * live, reading humansDone, racersDone and sSince; before, after and
     * powers are their states before and after it and their power
     * readings, which the step leaves alone. Riders getUsers leaves out
     * keep their states and recorders.
     */
    method LiveStep(tmNow: int, slopeFactor: real -> real, ghost live: seq<User>,
                    ghost humansDone: bool, ghost racersDone: bool, ghost sSince: real)
      returns (ghost before: seq<UserState>, ghost after: seq<UserState>, ghost powers: seq<real>)
      requires Valid() && Rideable(RidersOf(provider.users), raceState.course)
      requires forall s :: slopeFactor(s) >= 0.0
      requires live == RidersOf(Live(provider.users, tmNow))
      requires humansDone == AllHumansFinished(live, raceState.course.length)
      requires racersDone == AllRacersFinished(live, raceState.course.length)
      requires sSince == raceState.SecondsSinceLastNonFinishedHuman(tmNow)
      modifies this, raceState, live, Recs(live), Drafts(live)
      ensures Valid()
      ensures aiBrains == old(aiBrains) && tmScheduledRaceStart == old(tmScheduledRaceStart) && tmLastAiUpdate == old(tmLastAiUpdate)
      ensures |before| == |live| && |after| == |live| && |powers| == |live|
      ensures forall k :: 0 <= k < |live| ==>
        before[k] == old(live[k].State()) && after[k] == live[k].State()
        && powers[k] == old(live[k].rec.lastPower) && powers[k] == live[k].rec.lastPower
      ensures var step := LifecycleStep(old(lastMode), tmNow, old(tmScheduledRaceStart), humansDone, racersDone, sSince);
        var ticks := step.physics && !old(raceState.stopped);
        lastMode == step.mode && stopped == (old(stopped) || step.stops)
        && tmRaceStart == (if tmNow < old(tmScheduledRaceStart) then -1 else if old(tmRaceStart) < 0 then tmNow else old(tmRaceStart))
        && (ticks ==> AllTicked(before, after, tmNow, raceState.course.length))
        && (ticks ==> TickedInOrder(live, before, after, powers, tmNow, raceState.course, slopeFactor))
        && (!ticks ==> after == before)
        && raceState.tmUnfinishedHuman == (if ticks && HumanStillRiding(live, |live|) then tmNow else old(raceState.tmUnfinishedHuman))
      ensures forall k :: 0 <= k < |live| ==>
        live[k].rec.State() == CrossedAt(old(live[k].rec.State()), before[k], after[k], tmNow, raceState.course.length)
    {
      var users := provider.GetUsers(tmNow);
      var riders := RidersOf(users);
      LiveRiders(provider.users, tmNow, raceState.course);
      before, after, powers := RunLifecycle(tmNow, riders, slopeFactor, RidersOf(provider.users), humansDone, racersDone, sSince);
    }

    /**
     * The AI pass of _tick: the AIs coast when getUsers shows at least two
     * humans, none of them pedalling; each AI rider of the roster (every one
     * of them is live) is told its power, and the update time is stamped.
     * Only power readings change, so the live riders and everything the
     * lifecycle step reads are as they were.
     */
    method UpdateAis(tmNow: int, jitter: int -> real, other: int -> real, ghost live: seq<User>)
      requires Valid() && Rideable(RidersOf(provider.users), raceState.course)
      requires live == RidersOf(Live(provider.users, tmNow))
      modifies this, AiRecs(provider.users)
      ensures Valid() && Rideable(RidersOf(provider.users), raceState.course)
      ensures RecorderStates(RidersOf(provider.users))
        == AiPassed(old(RecorderStates(RidersOf(provider.users))), old(States(RidersOf(provider.users))), tmNow,
                    old(AisShouldCoast(RidersOf(Live(provider.users, tmNow)))), old(aiBrains), raceState.course, jitter, other)
      ensures Fields() == old(Fields()).(tmLastAiUpdate := tmNow) && unchanged(provider, raceState)
      ensures RidersOf(Live(provider.users, tmNow)) == live
      ensures forall k :: 0 <= k < |live| ==> live[k].State() == old(live[k].State())
      ensures AllHumansFinished(live, raceState.course.length) == old(AllHumansFinished(live, raceState.course.length))
      ensures AllRacersFinished(live, raceState.course.length) == old(AllRacersFinished(live, raceState.course.length))
    {
      var allUsers := provider.GetUsers(tmNow);
      var coast := AisShouldCoast(RidersOf(allUsers));
      ghost var recs0, sts0 := RecorderStates(RidersOf(provider.users)), States(RidersOf(provider.users));
      NotifyRoster(tmNow, coast, jitter, other, live);
      ghost var recs1 := RecorderStates(RidersOf(provider.users));
      assert recs1 == AiPassed(recs0, sts0, tmNow, coast, aiBrains, raceState.course, jitter, other);
      StampKeeping(tmNow, live);
      assert RecorderStates(RidersOf(provider.users)) == recs1;
    }

    /**
     * The AI pass over the roster: only power readings change, so the game
     * stays sound, getUsers returns the same riders, and any riders `live`
     * keep their states and what a lifecycle step over them reads.
     */
    method NotifyRoster(tmNow: int, coast: bool, jitter: int -> real, other: int -> real, ghost live: seq<User>)
      requires Valid() && Rideable(RidersOf(provider.users), raceState.course)
      modifies AiRecs(provider.users)
      ensures Valid() && Rideable(RidersOf(provider.users), raceState.course)
      ensures unchanged(this, provider, raceState) && unchanged(RidersOf(provider.users))
      ensures RecorderStates(RidersOf(provider.users))
        == AiPassed(old(RecorderStates(RidersOf(provider.users))), old(States(RidersOf(provider.users))), tmNow, coast,
                    aiBrains, raceState.course, jitter, other)
      ensures RidersOf(Live(provider.users, tmNow)) == old(RidersOf(Live(provider.users, tmNow)))
      ensures forall k :: 0 <= k < |live| ==> live[k].State() == old(live[k].State())
      ensures AllHumansFinished(live, raceState.course.length) == old(AllHumansFinished(live, raceState.course.length))
      ensures AllRacersFinished(live, raceState.course.length) == old(AllRacersFinished(live, raceState.course.length))
    {
      RidersAreNotRecorders(live, RidersOf(provider.users));
      NotifyPass(tmNow, coast, jitter, other);
      assert unchanged(live);
    }

    /** The AI pass proper: recorders as AiPassed says, riders, roster and race state left alone. */
    method NotifyPass(tmNow: int, coast: bool, jitter: int -> real, other: int -> real)
      requires Valid() && Rideable(RidersOf(provider.users), raceState.course)
      modifies AiRecs(provider.users)
      ensures Valid() && Rideable(RidersOf(provider.users), raceState.course)
      ensures unchanged(this, provider, raceState) && unchanged(RidersOf(provider.users))
      ensures RecorderStates(RidersOf(provider.users))
        == AiPassed(old(RecorderStates(RidersOf(provider.users))), old(States(RidersOf(provider.users))), tmNow, coast,
                    aiBrains, raceState.course, jitter, other)
      ensures Live(provider.users, tmNow) == old(Live(provider.users, tmNow))
    {
      OutsideRoster(this, RidersOf(provider.users));
      NotifyRecorders(tmNow, coast, jitter, other);
      ValidKept(provider);
    }

    /** NotifyPass without the invariants: the recorders change as AiPassed says and keep their ids. */
    method NotifyRecorders(tmNow: int, coast: bool, jitter: int -> real, other: int -> real)
      requires Roster(RidersOf(provider.users)) && BrainsOk(aiBrains) && raceState.course.length != 0.0
      modifies AiRecs(provider.users)
      ensures forall k :: 0 <= k < |provider.users| ==> provider.users[k].rider.rec.id == old(provider.users[k].rider.rec.id)
      ensures RecorderStates(RidersOf(provider.users))
        == AiPassed(old(RecorderStates(RidersOf(provider.users))), old(States(RidersOf(provider.users))), tmNow, coast,
                    aiBrains, raceState.course, jitter, other)
      ensures Live(provider.users, tmNow) == old(Live(provider.users, tmNow))
      ensures unchanged(this, provider, provider.counter, raceState) && unchanged(RidersOf(provider.users))
    {
      OutsideRoster(this, RidersOf(provider.users));
      RidersAreNotRecorders(RidersOf(provider.users), RidersOf(provider.users));
      NotifyAis(tmNow, provider.users, coast, aiBrains, raceState.course, jitter, other);
    }

    /**
     * Stamping the AI update time leaves the roster, its recorders and, for
     * any riders `live`, their states and what a lifecycle step reads.
     */
    method StampKeeping(tmNow: int, ghost live: seq<User>)
      requires Valid() && Rideable(RidersOf(provider.users), raceState.course)
      modifies this
      ensures Valid() && Rideable(RidersOf(provider.users), raceState.course)
      ensures Fields() == old(Fields()).(tmLastAiUpdate := tmNow) && unchanged(provider, raceState)
      ensures unchanged(Recs(RidersOf(provider.users)))
      ensures RecorderStates(RidersOf(provider.users)) == old(RecorderStates(RidersOf(provider.users)))
      ensures RidersOf(Live(provider.users, tmNow)) == old(RidersOf(Live(provider.users, tmNow)))
      ensures forall k :: 0 <= k < |live| ==> live[k].State() == old(live[k].State())
      ensures AllHumansFinished(live, raceState.course.length) == old(AllHumansFinished(live, raceState.course.length))
      ensures AllRacersFinished(live, raceState.course.length) == old(AllRacersFinished(live, raceState.course.length))
    {
      ghost var users := provider.users;
      LiveKept(users, tmNow);
      Stamp(tmNow, live);
      LiveKept(users, tmNow);
    }

    /** The write itself: only the AI update time changes, so getUsers' test on every rider gives what it gave. */
    method Stamp(tmNow: int, ghost live: seq<User>)
      requires Valid() && Rideable(RidersOf(provider.users), raceState.course)
      modifies this
      ensures Valid() && Rideable(RidersOf(provider.users), raceState.course)
      ensures Fields() == old(Fields()).(tmLastAiUpdate := tmNow) && unchanged(provider, provider.counter, raceState)
      ensures unchanged(RidersOf(provider.users)) && unchanged(Recs(RidersOf(provider.users))) && unchanged(live) && unchanged(Recs(live))
      ensures LiveFlags(provider.users, tmNow) == old(LiveFlags(provider.users, tmNow))
    {
      OutsideRoster(this, RidersOf(provider.users));
      OutsideRoster(this, live);
      ghost var users := provider.users;
      ghost var flags := LiveFlags(users, tmNow);
      LiveFlagsAll(users, tmNow);
      tmLastAiUpdate := tmNow;
      NotTheGame(this, users);
      SameFlags(users, tmNow, flags);
    }

    /**
     * The lifecycle half of _tick over the live riders `users`: before the
     * scheduled start the race is pre-race with no start time; after it the
     * first such tick records the start, and the mode moves as
     * LifecycleStep says, running the race state's physics or stopping the
     * game as it says.
     */
    method RunLifecycle(tmNow: int, users: seq<User>, slopeFactor: real -> real, ghost roster: seq<User>,
                        ghost humansDone: bool, ghost racersDone: bool, ghost sSince: real)
      returns (ghost before: seq<UserState>, ghost after: seq<UserState>, ghost powers: seq<real>)
      requires provider.Valid() && Roster(users) && Rideable(users, raceState.course)
      requires roster == RidersOf(provider.users) && Within(users, roster)
      requires forall s :: slopeFactor(s) >= 0.0
      requires humansDone == AllHumansFinished(users, raceState.course.length)
      requires racersDone == AllRacersFinished(users, raceState.course.length)
      requires sSince == raceState.SecondsSinceLastNonFinishedHuman(tmNow)
      modifies this, raceState, users, Recs(users), Drafts(users)
      ensures |before| == |users| && |after| == |users| && |powers| == |users|
      ensures forall k :: 0 <= k < |users| ==>
        before[k] == old(users[k].State()) && after[k] == users[k].State()
        && powers[k] == old(users[k].rec.lastPower) && powers[k] == users[k].rec.lastPower
      ensures var step := LifecycleStep(old(lastMode), tmNow, old(tmScheduledRaceStart), humansDone, racersDone, sSince);
        var ticks := step.physics && !old(raceState.stopped);
        Fields() == old(Fields()).(lastMode := step.mode, stopped := old(stopped) || step.stops,
          tmRaceStart := if tmNow < old(tmScheduledRaceStart) then -1 else if old(tmRaceStart) < 0 then tmNow else old(tmRaceStart))
        && raceState.stopped == (old(raceState.stopped) || step.stops)
        && (ticks ==> AllTicked(before, after, tmNow, raceState.course.length))
        && (ticks ==> TickedInOrder(users, before, after, powers, tmNow, raceState.course, slopeFactor))
        && (!ticks ==> after == before)
        && raceState.tmUnfinishedHuman == (if ticks && HumanStillRiding(users, |users|) then tmNow else old(raceState.tmUnfinishedHuman))
      ensures provider.Valid()
      ensures forall k :: 0 <= k < |users| ==>
        users[k].rec.State() == CrossedAt(old(users[k].rec.State()), before[k], after[k], tmNow, raceState.course.length)
    {
      var length := raceState.course.length;
      // (the finish predicates and the seconds since the last unfinished human are
      // pure; the source reads them only on the branches that LifecycleStep tests them on)
      var step := LifecycleStep(lastMode, tmNow, tmScheduledRaceStart, AllHumansFinished(users, length),
                                AllRacersFinished(users, length), raceState.SecondsSinceLastNonFinishedHuman(tmNow));
      before, after, powers := Physics(raceState, step.physics, tmNow, users, roster, slopeFactor, this);
      if step.physics && !old(raceState.stopped) {
        InOrderTicked(users, before, after, powers, tmNow, raceState.course, slopeFactor);
      }
      Advance(step, tmNow, users);
    }

    /** The game's own fields after a lifecycle step: the start time, the stop and the mode. */
    method Advance(step: StepResult, tmNow: int, ghost users: seq<User>)
      requires provider.Valid()
      modifies this, raceState
      ensures provider.Valid() && unchanged(users)
      ensures forall k :: 0 <= k < |users| ==>
        users[k].State() == old(users[k].State()) && users[k].rec.State() == old(users[k].rec.State())
        && users[k].rec.lastPower == old(users[k].rec.lastPower)
      ensures HumanStillRiding(users, |users|) == old(HumanStillRiding(users, |users|))
      ensures Fields() == old(Fields()).(lastMode := step.mode, stopped := old(stopped) || step.stops,
        tmRaceStart := if tmNow < tmScheduledRaceStart then -1 else if old(tmRaceStart) < 0 then tmNow else old(tmRaceStart))
      ensures raceState.stopped == (old(raceState.stopped) || step.stops)
      ensures raceState.tmUnfinishedHuman == old(raceState.tmUnfinishedHuman)
    {
      AdvanceFields(step, tmNow);
      assert unchanged(Recs(users));
    }

    /** Advance on the game's own fields and the race state's stop flag alone. */
    method AdvanceFields(step: StepResult, tmNow: int)
      modifies this, raceState
      ensures Fields() == old(Fields()).(lastMode := step.mode, stopped := old(stopped) || step.stops,
        tmRaceStart := if tmNow < tmScheduledRaceStart then -1 else if old(tmRaceStart) < 0 then tmNow else old(tmRaceStart))
      ensures raceState.stopped == (old(raceState.stopped) || step.stops)
      ensures raceState.tmUnfinishedHuman == old(raceState.tmUnfinishedHuman)
    {
      if tmNow < tmScheduledRaceStart {
        tmRaceStart := -1;
      } else if tmRaceStart < 0 {
        tmRaceStart := tmNow;
      }
      if step.stops {
        Stop();
        // (the permanent finish record is written to disk: not part of this model)
      }
      lastMode := step.mode;
    }

    /** The race state's tick, when the lifecycle runs physics. */
    static method Physics(rs: RaceState, run: bool, tmNow: int, users: seq<User>, ghost roster: seq<User>, slopeFactor: real -> real,
                          ghost game: ServerGame)
      returns (ghost before: seq<UserState>, ghost after: seq<UserState>, ghost powers: seq<real>)
      requires Roster(users) && Rideable(users, rs.course) && Within(users, roster)
      requires forall s :: slopeFactor(s) >= 0.0
      requires game.provider.Valid() && roster == RidersOf(game.provider.users)
      modifies rs, users, Recs(users), Drafts(users)
      ensures unchanged(game, game.provider, game.provider.counter) && game.provider.Valid()
      ensures rs.stopped == old(rs.stopped)
      ensures |before| == |users| && |after| == |users| && |powers| == |users|
      ensures forall k :: 0 <= k < |users| ==>
        before[k] == old(users[k].State()) && after[k] == users[k].State()
        && powers[k] == old(users[k].rec.lastPower) && powers[k] == users[k].rec.lastPower
      ensures run && !old(rs.stopped) ==> TickedInOrder(users, before, after, powers, tmNow, rs.course, slopeFactor)
      ensures !run || old(rs.stopped) ==> after == before
      ensures rs.tmUnfinishedHuman == if run && !old(rs.stopped) && HumanStillRiding(users, |users|) then tmNow else old(rs.tmUnfinishedHuman)
      ensures forall k :: 0 <= k < |roster| ==> roster[k].rec.id == old(roster[k].rec.id)
      ensures forall k :: 0 <= k < |users| ==>
        users[k].rec.State() == CrossedAt(old(users[k].rec.State()), before[k], after[k], tmNow, rs.course.length)
    {
      if run {
        before, after, powers := RaceTick(rs, tmNow, users, roster, slopeFactor, game);
      } else {
        before, powers := States(users), Powers(users);
        after := before;
      }
    }

    /** The race state's tick, keeping the roster sound: riders keep their ids. */
    static method RaceTick(rs: RaceState, tmNow: int, users: seq<User>, ghost roster: seq<User>, slopeFactor: real -> real,
                           ghost game: ServerGame)
      returns (ghost before: seq<UserState>, ghost after: seq<UserState>, ghost powers: seq<real>)
      requires Roster(users) && Rideable(users, rs.course) && Within(users, roster)
      requires forall s :: slopeFactor(s) >= 0.0
      requires game.provider.Valid() && roster == RidersOf(game.provider.users)
      modifies rs, users, Recs(users), Drafts(users)
      ensures unchanged(game, game.provider, game.provider.counter) && game.provider.Valid()
      ensures rs.stopped == old(rs.stopped)
      ensures |before| == |users| && |after| == |users| && |powers| == |users|
      ensures forall k :: 0 <= k < |users| ==>
        before[k] == old(users[k].State()) && after[k] == users[k].State()
        && powers[k] == old(users[k].rec.lastPower) && powers[k] == users[k].rec.lastPower
      ensures !old(rs.stopped) ==> TickedInOrder(users, before, after, powers, tmNow, rs.course, slopeFactor)
      ensures old(rs.stopped) ==> after == before
      ensures rs.tmUnfinishedHuman == if !old(rs.stopped) && HumanStillRiding(users, |users|) then tmNow else old(rs.tmUnfinishedHuman)
      ensures forall k :: 0 <= k < |roster| ==> roster[k].rec.id == old(roster[k].rec.id)
      ensures forall k :: 0 <= k < |users| ==>
        users[k].rec.State() == CrossedAt(old(users[k].rec.State()), before[k], after[k], tmNow, rs.course.length)
    {
      OutsideTick(game, users);
      before, after, powers := TickKeepingIds(rs, tmNow, users, roster, slopeFactor);
      ValidKept(game.provider);
    }

    /** The race state's tick seen from a roster holding its riders: every rider of the roster keeps its id. */
    static method TickKeepingIds(rs: RaceState, tmNow: int, users: seq<User>, ghost roster: seq<User>, slopeFactor: real -> real)
      returns (ghost before: seq<UserState>, ghost after: seq<UserState>, ghost powers: seq<real>)
      requires Roster(users) && Rideable(users, rs.course) && Within(users, roster)
      requires forall s :: slopeFactor(s) >= 0.0
      modifies rs, users, Recs(users), Drafts(users)
      ensures rs.stopped == old(rs.stopped)
      ensures |before| == |users| && |after| == |users| && |powers| == |users|
      ensures forall k :: 0 <= k < |users| ==>
        before[k] == old(users[k].State()) && after[k] == users[k].State()
        && powers[k] == old(users[k].rec.lastPower) && powers[k] == users[k].rec.lastPower
      ensures !old(rs.stopped) ==> TickedInOrder(users, before, after, powers, tmNow, rs.course, slopeFactor)
      ensures old(rs.stopped) ==> after == before
      ensures rs.tmUnfinishedHuman == if !old(rs.stopped) && HumanStillRiding(users, |users|) then tmNow else old(rs.tmUnfinishedHuman)
      ensures forall k :: 0 <= k < |users| ==>
        users[k].rec.State() == CrossedAt(old(users[k].rec.State()), before[k], after[k], tmNow, rs.course.length)
      ensures forall k :: 0 <= k < |roster| ==> roster[k].rec.id == old(roster[k].rec.id)
    {
      before, after, powers := rs.Tick(tmNow, users, slopeFactor);
      forall j | 0 <= j < |roster|
        ensures roster[j].rec.id == old(roster[j].rec.id)
      {
        var r := roster[j].rec;
        if r !in Recs(users) {
          assert (r as object) !in users && (r as object) !in Drafts(users) && (r as object) != rs;
        }
      }
    }

    /** A rider joining a finished race is finished now, at the end of the course. */
    method ClaimFinished(u: ServerUser, tmNow: int)
      requires Valid() && provider.users != [] && u == provider.users[|provider.users| - 1]
      modifies u.rider, u.rider.rec
      ensures Valid()
      ensures u.rider.rec.State() == old(u.rider.rec.State()).(tmFinish := tmNow)
      ensures u.rider.State() == old(u.rider.State()).(position := raceState.course.length)
    {
      u.rider.rec.SetFinishTime(tmNow);
      u.SetPosition(raceState.course.length);
      var users := provider.users;
      var last := |users| - 1;
      forall k | 0 <= k < |users|
        ensures users[k].rider.rec.id == provider.ids[k]
      {
        if k != last {
          assert RidersOf(users)[k] == users[k].rider && RidersOf(users)[last] == u.rider;
          assert users[k].rider.rec != u.rider.rec;
          assert users[k].rider.rec.id == old(users[k].rider.rec.id);
        }
      }
    }
  }
}
