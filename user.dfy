/**
 * User.ts: one rider. The recorder part (power, heart rate, finish time,
 * id, packets), the physics step with its drafting rule, the draftee
 * cycle, the crossing-time lookup, and the reconciliation with server
 * updates.
 *
 * The source's `User extends UserDataRecorder` becomes composition: a User
 * owns a DataRecorder and a DraftCycle (the draftee bookkeeping that other
 * riders' physics steps update). The slope-force trigonometry
 * (sqrt(sin^2 + (cos - 1)^2) of atan(slope)) is the parameter
 * `slopeFactor`; only its being non-negative is used.
 */
module Riders {
  import opened Common
  import opened RideMaps
  import HandicapMaps

  const Crr: real := 0.0033
  const Gravity: real := 9.81
  const Rho: real := 1.225
  const Cda: real := 0.25
  const DefaultRiderMass: real := 80.0
  const UiSmoothSeconds: real := 1.0
  const DraftingClose: real := 1.5
  const DraftingFar: real := 10.0

  /** UserTypeFlags, as the 32-bit integers JavaScript's `&` works on. */
  const Local: bv32 := 1
  const Remote: bv32 := 2
  const Ai: bv32 := 4
  const Bot: bv32 := 8

  predicate HasFlag(flags: bv32, flag: bv32) { flags & flag != 0 }

  datatype HandicapChangeReason = UserJoined | ServerRehandicap

  datatype JoulesUsedClass = WholeCourse | Last500m | WhileUphill | WhileDownhill | FirstHalf | LastHalf

  /** A DistanceHistoryElement; the power history reuses it with watts as `distance`. */
  datatype HistoryElement = HistoryElement(tm: int, distance: real)

  datatype DrafteeStat = DrafteeStat(drafteeDist: real, drafteePctSaved: real)

  datatype DraftSavings = DraftSavings(watts: real, pctOfMax: real, fromDistance: real)

  /** S2CPositionUpdateUser of communication.ts. */
  datatype PositionUpdateUser = PositionUpdateUser(id: int, distance: real, speed: real, power: real, hrm: real)

  // ---------------------------------------------------------------------
  // Drafting

  /**
   * getDraftModForSpeed: a rider's draft zone stretches (and its benefit
   * shrinks) linearly from 1x at 10 m/s to 2x at 20 m/s.
   */
  function DraftModForSpeed(speed: real): (r: real)
    ensures 1.0 <= r <= 2.0
    ensures speed <= 10.0 ==> r == 1.0
    ensures speed >= 20.0 ==> r == 2.0
    ensures 10.0 <= speed <= 20.0 ==> r * 10.0 == speed
  {
    Max(1.0, Min(2.0, speed / 10.0))
  }

  /** A gap is draftable if it lies in [3 m, 10 m * mod] behind the rider ahead. */
  predicate InDraftZone(gap: real, effectMod: real)
  {
    DraftingClose * 2.0 <= gap <= DraftingFar * effectMod
  }

  /** What the draft-target search reads of another rider. */
  datatype RiderView = RiderView(position: real, speed: real)

  function GapTo(me: real, v: RiderView): real { v.position - me }

  predicate Draftable(me: real, v: RiderView)
  {
    InDraftZone(GapTo(me, v), DraftModForSpeed(v.speed))
  }

  datatype DraftPick = DraftPick(ix: nat, gap: real, effectMod: real)

  /**
   * The forEach over the other riders: a later rider replaces the current
   * pick only when it is draftable and strictly closer. The result is the
   * nearest draftable rider, the earliest one among equals, and None when
   * no rider is draftable.
   */
  function Nearest(me: real, views: seq<RiderView>): (r: Option<DraftPick>)
    ensures r.Some? ==> r.value.ix < |views| && Draftable(me, views[r.value.ix])
                        && r.value.gap == GapTo(me, views[r.value.ix])
                        && r.value.effectMod == DraftModForSpeed(views[r.value.ix].speed)
  {
    if |views| == 0 then None
    else
      var prev := Nearest(me, views[..|views| - 1]);
      var v := views[|views| - 1];
      if Draftable(me, v) && (prev.None? || GapTo(me, v) < prev.value.gap) then
        Some(DraftPick(|views| - 1, GapTo(me, v), DraftModForSpeed(v.speed)))
      else
        prev
  }

  /**
   * What the search finds: a draftable rider at the recorded gap, no
   * further than any draftable rider and strictly closer than every
   * draftable rider before it; and nothing only when nobody is draftable.
   */
  lemma {:induction false} NearestSpec(me: real, views: seq<RiderView>)
    ensures var r := Nearest(me, views);
      && (r.Some? ==> r.value.ix < |views| && Draftable(me, views[r.value.ix]))
      && (r.Some? ==> r.value.gap == GapTo(me, views[r.value.ix])
                      && r.value.effectMod == DraftModForSpeed(views[r.value.ix].speed))
      && (r.Some? ==> forall j :: 0 <= j < |views| && Draftable(me, views[j]) ==> r.value.gap <= GapTo(me, views[j]))
      && (r.Some? ==> forall j :: 0 <= j < r.value.ix && Draftable(me, views[j]) ==> r.value.gap < GapTo(me, views[j]))
      && (r.None? <==> forall j :: 0 <= j < |views| ==> !Draftable(me, views[j]))
  {
    if |views| > 0 {
      var init := views[..|views| - 1];
      NearestSpec(me, init);
      assert forall j :: 0 <= j < |init| ==> init[j] == views[j];
    }
  }

  /** myPct: 0 at the close edge of the draft zone, 1 at its far edge. */
  function DraftPct(gap: real, effectMod: real): (r: real)
    requires InDraftZone(gap, effectMod) && effectMod >= 1.0
    ensures 0.0 <= r <= 1.0
  {
    FractionInUnit(gap - DraftingClose, effectMod * DraftingFar - DraftingClose);
    (gap - DraftingClose) / (effectMod * DraftingFar - DraftingClose)
  }

  /** 1 - bestPossibleReduction: the aero multiplier right on the leader's wheel. */
  function PctClose(drafteeCount: nat, effectMod: real): real
    requires effectMod >= 1.0
  {
    1.0 - (0.33 / MaxInt(1, drafteeCount) as real) / effectMod
  }

  /**
   * myPctReduction: interpolates from the close-edge multiplier to 1 at the
   * far edge. It never goes below the close-edge multiplier nor above 1.
   */
  function DraftAeroMultiplier(gap: real, effectMod: real, drafteeCount: nat): (r: real)
    requires InDraftZone(gap, effectMod) && effectMod >= 1.0
    ensures PctClose(drafteeCount, effectMod) <= r <= 1.0
  {
    var pctClose := PctClose(drafteeCount, effectMod);
    var myPct := DraftPct(gap, effectMod);
    CloseMultiplierBounds(drafteeCount, effectMod);
    InterpolationBetween(myPct, pctClose, 1.0, pctClose, 1.0);
    myPct * 1.0 + (1.0 - myPct) * pctClose
  }

  lemma {:induction false} CloseMultiplierBounds(drafteeCount: nat, effectMod: real)
    requires effectMod >= 1.0
    ensures 0.67 <= PctClose(drafteeCount, effectMod) < 1.0
  {
    var c := MaxInt(1, drafteeCount) as real;
    var best := (0.33 / c) / effectMod;
    assert 0.33 / c <= 0.33 by {
      assert (0.33 / c) * c == 0.33;
      MulNonneg(0.33 / c, c - 1.0);
    }
    assert best * effectMod == 0.33 / c;
    assert best <= 0.33 by {
      MulNonneg(best, effectMod - 1.0);
    }
    assert best > 0.0 by {
      SignOfFactor(best, effectMod);
    }
  }

  /** A pick the search can return: a draftable gap and a modifier of at least 1. */
  predicate ValidPick(pick: Option<DraftPick>)
  {
    pick.Some? ==> InDraftZone(pick.value.gap, pick.value.effectMod) && pick.value.effectMod >= 1.0
  }

  /**
   * The multiplier drafting applies to the aero force, given the pick and
   * the number of riders that drafted the leader last cycle: 1 without a pick.
   */
  function DraftMultiplier(pick: Option<DraftPick>, leaderCount: nat): (r: real)
    requires ValidPick(pick)
    ensures 0.67 <= r <= 1.0
    ensures pick.None? ==> r == 1.0
  {
    match pick
    case None => 1.0
    case Some(p) =>
      CloseMultiplierBounds(leaderCount, p.effectMod);
      DraftAeroMultiplier(p.gap, p.effectMod, leaderCount)
  }

  /** Every pick of the search is valid. */
  lemma {:induction false} NearestIsValid(me: real, views: seq<RiderView>)
    ensures ValidPick(Nearest(me, views))
    ensures Nearest(me, views).Some? ==> Nearest(me, views).value.ix < |views|
  {
    NearestSpec(me, views);
  }

  /** Watts saved: the drag the multiplier removes, times the speed. */
  function WattsSaved(mult: real, speed: real): (r: real)
    ensures r >= 0.0
  {
    var newtonsSaved := (1.0 - mult) * AeroForce(speed);
    var w := newtonsSaved * speed;
    if w < 0.0 then -w else w
  }

  // ---------------------------------------------------------------------
  // Forces and the motion step

  /** Air resistance at a speed: -v^2 * rho * cda / 2. */
  function AeroForce(speed: real): (r: real)
    ensures r <= 0.0
  {
    -(speed * speed) * 0.5 * Rho * Cda
  }

  /** Drafting never turns drag into push, and never adds drag. */
  lemma DraftedAero(speed: real, mult: real)
    requires 0.0 <= mult <= 1.0
    ensures AeroForce(speed) <= AeroForce(speed) * mult <= 0.0
  {
    var a := AeroForce(speed);
    MulNonneg(-a, 1.0 - mult);
    MulNonneg(-a, mult);
  }

  /** The slope force: downhill it pushes, otherwise it holds back. */
  function SlopeForce(slope: real, factor: real, massKg: real): (r: real)
    requires factor >= 0.0 && massKg > 0.0
    ensures slope < 0.0 ==> r >= 0.0
    ensures slope >= 0.0 ==> r <= 0.0
  {
    MulNonneg(factor, massKg);
    var f := -factor * massKg * Gravity;
    if slope < 0.0 then -f else f
  }

  function RollingForce(massKg: real): (r: real)
    requires massKg > 0.0
    ensures r <= 0.0
  {
    -Crr * massKg * Gravity
  }

  /** The power the course credits: raw watts, or watts normalised by the handicap. */
  function TransformedPower(transform: PowerTransform, power: real, handicap: real): real
    requires transform == HandicapNormalised ==> handicap != 0.0
  {
    match transform
    case Unchanged => power
    case HandicapNormalised => HandicapMaps.PowerTransform(power, handicap)
  }

  /** Pedalling force: power over speed, the speed floored at 0.5 m/s. */
  function PowerForce(transformedPower: real, speed: real): real
  {
    transformedPower / Max(speed, 0.5)
  }

  function TotalForce(speed: real, transformedPower: real, aero: real, slopeForce: real, massKg: real): real
    requires massKg > 0.0
  {
    PowerForce(transformedPower, speed) + aero + slopeForce + RollingForce(massKg)
  }

  /** The new speed: Euler step of force over mass, floored at 0.5 m/s. */
  function NextSpeed(speed: real, force: real, massKg: real, dt: real): (r: real)
    requires massKg > 0.0
    ensures r >= 0.5
  {
    Max(0.5, speed + (force / massKg) * dt)
  }

  /** More force never makes a rider slower. */
  lemma NextSpeedMonotone(speed: real, f1: real, f2: real, massKg: real, dt: real)
    requires massKg > 0.0 && dt >= 0.0 && f1 <= f2
    ensures NextSpeed(speed, f1, massKg, dt) <= NextSpeed(speed, f2, massKg, dt)
  {
    assert f1 / massKg <= f2 / massKg by {
      assert (f2 / massKg - f1 / massKg) * massKg == f2 - f1;
      SignOfFactor(f2 / massKg - f1 / massKg, massKg);
    }
    MulNonneg(f2 / massKg - f1 / massKg, dt);
  }

  /** A rider in a draft is never slower after the step than the same rider out of it. */
  lemma DraftingNeverSlows(speed: real, tp: real, mult: real, slopeForce: real, massKg: real, dt: real)
    requires massKg > 0.0 && dt >= 0.0 && 0.0 <= mult <= 1.0
    ensures NextSpeed(speed, TotalForce(speed, tp, AeroForce(speed), slopeForce, massKg), massKg, dt)
         <= NextSpeed(speed, TotalForce(speed, tp, AeroForce(speed) * mult, slopeForce, massKg), massKg, dt)
  {
    DraftedAero(speed, mult);
    NextSpeedMonotone(speed, TotalForce(speed, tp, AeroForce(speed), slopeForce, massKg),
                      TotalForce(speed, tp, AeroForce(speed) * mult, slopeForce, massKg), massKg, dt);
  }

  /** The new position: advance by at most the course length, then clamp to it. */
  function NextPosition(position: real, length: real, speed: real, dt: real): real
  {
    Min(length, position + Min(length, speed * dt))
  }

  /** The position never passes the end, and on the course it never goes back. */
  lemma PositionAdvances(position: real, length: real, speed: real, dt: real)
    ensures NextPosition(position, length, speed, dt) <= length
    ensures speed >= 0.0 && dt >= 0.0 && 0.0 <= length && position <= length
            ==> position <= NextPosition(position, length, speed, dt)
  {
    if speed >= 0.0 && dt >= 0.0 {
      MulNonneg(speed, dt);
    }
  }

  /**
   * The distance history gets a new entry when it is empty, or when the
   * rider is further along than the last entry more than a second later.
   */
  function HistoryAfter(h: seq<HistoryElement>, tmNow: int, position: real): seq<HistoryElement>
  {
    if |h| == 0 || (position > h[|h| - 1].distance && tmNow > h[|h| - 1].tm + 1000) then
      h + [HistoryElement(tmNow, position)]
    else
      h
  }

  /** Entries strictly further along and more than a second apart. */
  predicate Spaced(h: seq<HistoryElement>)
  {
    forall i :: 0 <= i < |h| - 1 ==> h[i].distance < h[i + 1].distance && h[i].tm + 1000 < h[i + 1].tm
  }

  /** Appending by the history rule keeps the history spaced, and drops nothing. */
  lemma {:induction false} HistoryStaysSpaced(h: seq<HistoryElement>, tmNow: int, position: real)
    ensures Spaced(h) ==> Spaced(HistoryAfter(h, tmNow, position))
    ensures HistoryAfter(h, tmNow, position)[..|h|] == h
    ensures |HistoryAfter(h, tmNow, position)| <= |h| + 1
  {
  }

  /** The finish time is taken on the tick that crosses the line, and only then. */
  function FinishAfter(tmFinish: int, lastPosition: real, position: real, length: real, tmNow: int): int
  {
    if lastPosition < length && position >= length then tmNow else tmFinish
  }

  /** When a category of joules is charged for a tick ending at `position`. */
  predicate Charged(c: JoulesUsedClass, position: real, length: real, slope: real)
  {
    0.0 < position < length &&
    match c
    case WholeCourse => true
    case WhileUphill => slope > 0.0
    case WhileDownhill => slope < 0.0
    case Last500m => position >= length - 500.0
    case LastHalf => position >= length / 2.0
    case FirstHalf => position < length / 2.0
  }

  /** A missing category reads as 0, the source's `|| 0`. */
  function Joules(j: map<JoulesUsedClass, real>, c: JoulesUsedClass): real
  {
    if c in j then j[c] else 0.0
  }

  function Charge(j: map<JoulesUsedClass, real>, c: JoulesUsedClass, amount: real): map<JoulesUsedClass, real>
  {
    j[c := Joules(j, c) + amount]
  }

  /**
   * The joule bookkeeping of physicsTick: on the course every category that
   * applies is charged, in the source's order; before the start the whole
   * course total is zeroed; past the end nothing changes.
   */
  function JoulesAfter(j: map<JoulesUsedClass, real>, position: real, length: real, slope: real, amount: real): map<JoulesUsedClass, real>
  {
    if 0.0 < position < length then
      var j1 := Charge(j, WholeCourse, amount);
      var j2 := if slope > 0.0 then Charge(j1, WhileUphill, amount) else j1;
      var j3 := if slope < 0.0 then Charge(j2, WhileDownhill, amount) else j2;
      var j4 := if position >= length - 500.0 then Charge(j3, Last500m, amount) else j3;
      var j5 := if position >= length / 2.0 then Charge(j4, LastHalf, amount) else j4;
      if position < length / 2.0 then Charge(j5, FirstHalf, amount) else j5
    else if position <= 0.0 then
      j[WholeCourse := 0.0]
    else
      j
  }

  /**
   * Per category: on the course, a tick adds its joules exactly to the
   * categories that apply; exactly one of the two halves applies.
   */
  lemma JoulesPerCategory(j: map<JoulesUsedClass, real>, position: real, length: real, slope: real, amount: real, c: JoulesUsedClass)
    requires 0.0 < position < length
    ensures Joules(JoulesAfter(j, position, length, slope, amount), c)
         == Joules(j, c) + (if Charged(c, position, length, slope) then amount else 0.0)
    ensures Charged(FirstHalf, position, length, slope) != Charged(LastHalf, position, length, slope)
  {
  }

  /** Off the course nothing is charged; before the start the whole-course total restarts at 0. */
  lemma JoulesOffCourse(j: map<JoulesUsedClass, real>, position: real, length: real, slope: real, amount: real, c: JoulesUsedClass)
    requires !(0.0 < position < length)
    ensures position <= 0.0 && c == WholeCourse ==> Joules(JoulesAfter(j, position, length, slope, amount), c) == 0.0
    ensures position > 0.0 || c != WholeCourse ==> Joules(JoulesAfter(j, position, length, slope, amount), c) == Joules(j, c)
  {
  }

  /** getHandicapSecondsSaved: saved joules over 300 W, for any non-zero handicap. */
  function HandicapSecondsSaved(joulesSaved: real, handicap: real): (r: real)
    requires handicap != 0.0
    ensures r == joulesSaved / DefaultHandicapPower
  {
    var handicapRatio := handicap / DefaultHandicapPower;
    var userJoulesSaved := joulesSaved * handicapRatio;
    assert userJoulesSaved == (joulesSaved / DefaultHandicapPower) * handicap;
    userJoulesSaved / handicap
  }

  /** getHandicapSecondsUsed: each category's joules as seconds at 300 W. */
  function HandicapSecondsUsed(j: map<JoulesUsedClass, real>): (r: map<JoulesUsedClass, real>)
    ensures r.Keys == j.Keys
    ensures forall c :: c in j ==> r[c] * DefaultHandicapPower == j[c]
  {
    map c | c in j :: j[c] / DefaultHandicapPower
  }

  /**
   * getDistanceForUi: the position minus the part of the last correction
   * not yet blended in; the correction fades out linearly over a second.
   */
  function UiDistance(position: real, smoothDelta: real, tmSmoothDelta: int, tmNow: int): (r: real)
    ensures tmNow - tmSmoothDelta >= 1000 ==> r == position
    ensures tmNow <= tmSmoothDelta ==> r == position - smoothDelta
  {
    var secondsSince := (tmNow - tmSmoothDelta) as real / 1000.0;
    var pct := Clamp(0.0, secondsSince / UiSmoothSeconds, 1.0);
    var shiftAmt := smoothDelta * (1.0 - pct);
    position - shiftAmt
  }

  /** The blended position always lies between the corrected and the uncorrected one. */
  lemma {:induction false} UiDistanceBetween(position: real, smoothDelta: real, tmSmoothDelta: int, tmNow: int)
    ensures var r := UiDistance(position, smoothDelta, tmSmoothDelta, tmNow);
      Min(position, position - smoothDelta) <= r <= Max(position, position - smoothDelta)
  {
    var pct := Clamp(0.0, ((tmNow - tmSmoothDelta) as real / 1000.0) / UiSmoothSeconds, 1.0);
    InterpolationBetween(pct, position - smoothDelta, position, Min(position, position - smoothDelta), Max(position, position - smoothDelta));
    assert position - smoothDelta * (1.0 - pct) == pct * position + (1.0 - pct) * (position - smoothDelta);
  }

  // ---------------------------------------------------------------------
  // Looking back through histories

  /** The earliest index of the run of entries at or after tmFirst that ends at j. */
  function RecentFrom(h: seq<HistoryElement>, tmFirst: real, j: nat): (start: nat)
    requires j <= |h|
    ensures start <= j
    ensures forall i :: start <= i < j ==> h[i].tm as real >= tmFirst
    ensures start > 0 ==> (h[start - 1].tm as real) < tmFirst
  {
    if j == 0 || (h[j - 1].tm as real) < tmFirst then j else RecentFrom(h, tmFirst, j - 1)
  }

  /** Sum of the values (the `distance` field) of a run of entries. */
  function SumValues(s: seq<HistoryElement>): real
  {
    if s == [] then 0.0 else s[0].distance + SumValues(s[1..])
  }

  /**
   * getPowerAverageForLastNSeconds as a value: the mean of the newest run
   * of entries no older than `seconds`; None where the source divides 0 by
   * 0 (no such entry).
   */
  function RecentAverage(h: seq<HistoryElement>, tmNow: int, seconds: real): Option<real>
  {
    var start := RecentFrom(h, tmNow as real - seconds * 1000.0, |h|);
    if start == |h| then None else Some(SumValues(h[start..]) / (|h| - start) as real)
  }

  /** An entry no older than the window: the run reaches past it, and the sum takes it in. */
  lemma RecentStep(h: seq<HistoryElement>, tmFirst: real, x: nat)
    requires x < |h| && h[x].tm as real >= tmFirst
    ensures RecentFrom(h, tmFirst, x + 1) == RecentFrom(h, tmFirst, x)
    ensures SumValues(h[x..]) == h[x].distance + SumValues(h[x + 1..])
  {
    assert h[x..][1..] == h[x + 1..];
  }

  /** Where the walk back stops, the newest run starts: the average is the walk's sum over its count. */
  lemma RecentDone(h: seq<HistoryElement>, tmNow: int, seconds: real, x: int)
    requires -1 <= x < |h| && RecentFrom(h, tmNow as real - seconds * 1000.0, |h|) == RecentFrom(h, tmNow as real - seconds * 1000.0, x + 1)
    requires x >= 0 ==> (h[x].tm as real) < tmNow as real - seconds * 1000.0
    ensures RecentFrom(h, tmNow as real - seconds * 1000.0, |h|) == x + 1
    ensures RecentAverage(h, tmNow, seconds) == if x + 1 == |h| then None else Some(SumValues(h[x + 1..]) / (|h| - 1 - x) as real)
  {
  }

  lemma {:induction false} SumOfConstant(s: seq<HistoryElement>, c: real)
    requires forall i :: 0 <= i < |s| ==> s[i].distance == c
    ensures SumValues(s) == |s| as real * c
  {
    if s != [] {
      SumOfConstant(s[1..], c);
    }
  }

  /** The mean of a non-empty run of equal values is that value. */
  lemma {:induction false} MeanOfConstant(s: seq<HistoryElement>, c: real)
    requires |s| > 0 && forall i :: 0 <= i < |s| ==> s[i].distance == c
    ensures SumValues(s) / |s| as real == c
  {
    SumOfConstant(s, c);
    ProductOverFactor(|s| as real, c);
  }

  /** A steady output reads back as itself. */
  lemma {:induction false} SteadyPowerAverage(h: seq<HistoryElement>, tmNow: int, seconds: real, c: real)
    requires forall i :: 0 <= i < |h| ==> h[i].distance == c
    requires |h| > 0 && (h[|h| - 1].tm as real) >= tmNow as real - seconds * 1000.0
    ensures RecentAverage(h, tmNow, seconds) == Some(c)
  {
    var tmFirst := tmNow as real - seconds * 1000.0;
    var start := RecentFrom(h, tmFirst, |h|);
    assert start < |h| by {
      assert start == RecentFrom(h, tmFirst, |h| - 1);
    }
    MeanOfConstant(h[start..], c);
  }

  /** When the rider was at `distance`, interpolated between two history entries. */
  function CrossTime(a: HistoryElement, b: HistoryElement, distance: real): (r: real)
    requires a.distance < distance < b.distance
    ensures Min(a.tm as real, b.tm as real) <= r <= Max(a.tm as real, b.tm as real)
  {
    var pct := (distance - a.distance) / (b.distance - a.distance);
    FractionInUnit(distance - a.distance, b.distance - a.distance);
    InterpolationBetween(pct, a.tm as real, b.tm as real, Min(a.tm as real, b.tm as real), Max(a.tm as real, b.tm as real));
    pct * b.tm as real + (1.0 - pct) * a.tm as real
  }

  /** The pair of entries at x and x + 1 strictly brackets `distance`, at a time before tmNow. */
  predicate CrossesAt(h: seq<HistoryElement>, distance: real, tmNow: int, x: nat)
  {
    x + 1 < |h| && h[x].distance < distance < h[x + 1].distance
    && CrossTime(h[x], h[x + 1], distance) < tmNow as real
  }

  /**
   * getSecondsAgoToCross from index x on: the seconds since the first
   * crossing of `distance` that lies in the past; None if there is none.
   */
  function CrossingFrom(h: seq<HistoryElement>, distance: real, tmNow: int, x: nat): (r: Option<real>)
    decreases |h| - x
    ensures r.Some? ==> r.value > 0.0
    ensures r.None? <==> forall y :: x <= y ==> !CrossesAt(h, distance, tmNow, y)
  {
    if x + 1 >= |h| then None
    else if CrossesAt(h, distance, tmNow, x) then
      Some((tmNow as real - CrossTime(h[x], h[x + 1], distance)) / 1000.0)
    else
      CrossingFrom(h, distance, tmNow, x + 1)
  }

  /** The crossing reported is the first one in the past: every earlier pair fails to bracket it. */
  lemma {:induction false} CrossingIsFirst(h: seq<HistoryElement>, distance: real, tmNow: int, x: nat, y: nat)
    requires x <= y && CrossesAt(h, distance, tmNow, y)
    requires forall z :: x <= z < y ==> !CrossesAt(h, distance, tmNow, z)
    decreases y - x
    ensures CrossingFrom(h, distance, tmNow, x) == Some((tmNow as real - CrossTime(h[y], h[y + 1], distance)) / 1000.0)
  {
    if x < y {
      assert !CrossesAt(h, distance, tmNow, x);
      CrossingIsFirst(h, distance, tmNow, x + 1, y);
    }
  }

  // ---------------------------------------------------------------------
  // The draftee cycle

  /** The draftee bookkeeping of one rider, as a value. */
  datatype CycleState = CycleState(pending: set<int>, last: set<int>, stats: seq<DrafteeStat>, tmCycle: int, bestSavings: real)

  /** drafteeCheck: on a later time the pending draftees become last cycle's. */
  function Checked(c: CycleState, tmNow: int): CycleState
  {
    if tmNow > c.tmCycle then c.(last := c.pending, pending := {}, tmCycle := tmNow, bestSavings := 0.0) else c
  }

  /** notifyDrafteeThisCycle: rotate as drafteeCheck does (resetting the stats), then record the draftee. */
  function Notified(c: CycleState, tmNow: int, id: int, stat: DrafteeStat): CycleState
  {
    var r := if tmNow > c.tmCycle then c.(last := c.pending, pending := {}, tmCycle := tmNow, stats := []) else c;
    r.(pending := r.pending + {id}, stats := r.stats + [stat])
  }

  /** The cycle time never goes back; a notified draftee is pending; last is replaced only on rotation. */
  lemma {:induction false} CycleRotation(c: CycleState, tmNow: int, id: int, stat: DrafteeStat)
    ensures Checked(c, tmNow).tmCycle == MaxInt(c.tmCycle, tmNow)
    ensures Notified(c, tmNow, id, stat).tmCycle == MaxInt(c.tmCycle, tmNow)
    ensures id in Notified(c, tmNow, id, stat).pending
    ensures tmNow > c.tmCycle ==> Checked(c, tmNow).last == c.pending && Notified(c, tmNow, id, stat).last == c.pending
    ensures tmNow <= c.tmCycle ==> Checked(c, tmNow).last == c.last && Notified(c, tmNow, id, stat).last == c.last
  {
  }

  /** A rider who drafted during a cycle is counted when the leader's next cycle begins. */
  lemma {:induction false} DrafteeCountedNextCycle(c: CycleState, t1: int, id: int, stat: DrafteeStat, t2: int)
    requires t2 > MaxInt(c.tmCycle, t1)
    ensures id in Checked(Notified(c, t1, id, stat), t2).last
    ensures |Checked(Notified(c, t1, id, stat), t2).last| >= 1
  {
    CycleRotation(c, t1, id, stat);
  }

  class DraftCycle {
    var pending: set<int>
    var last: set<int>
    var stats: seq<DrafteeStat>
    var tmCycle: int
    var bestSavings: real

    function State(): CycleState
      reads this
    {
      CycleState(pending, last, stats, tmCycle, bestSavings)
    }

    constructor()
      ensures State() == CycleState({}, {}, [], 0, 0.0)
    {
      pending, last, stats, tmCycle, bestSavings := {}, {}, [], 0, 0.0;
    }

    method NotifyDrafteeThisCycle(tmNow: int, id: int, stat: DrafteeStat)
      modifies this
      ensures State() == Notified(old(State()), tmNow, id, stat)
    {
      if tmNow > tmCycle {
        // time for a new draftee cycle!
        last := pending;
        pending := {};
        tmCycle := tmNow;
        stats := [];
      }
      pending := pending + {id};
      stats := stats + [stat];
    }

    method DrafteeCheck(tmNow: int)
      modifies this
      ensures State() == Checked(old(State()), tmNow)
    {
      if tmNow > tmCycle {
        last := pending;
        pending := {};
        tmCycle := tmNow;
        bestSavings := 0.0;
      }
    }

    /** getDrafteeCount: the distinct draftees of the last completed cycle. */
    function DrafteeCount(): nat
      reads this
    {
      |last|
    }
  }

  // ---------------------------------------------------------------------
  // UserDataRecorder

  datatype RecorderState = RecorderState(
    lastPower: real, tmLastPower: int, id: int, tmFinish: int, tmLastPacket: int,
    powerHistory: seq<HistoryElement>, lastHrm: real, tmLastHrm: int)

  /** What a fresh UserDataRecorder holds: no id, not finished, no packet. */
  const FreshRecorder: RecorderState := RecorderState(0.0, 0, -1, -1, -1, [], 0.0, 0)

  /** getLastHrm: the last heart rate while it is at most 5 s old, else 0. */
  function LastHrm(st: RecorderState, tmNow: int): (r: real)
    ensures tmNow <= st.tmLastHrm + 5000 ==> r == st.lastHrm
    ensures tmNow > st.tmLastHrm + 5000 ==> r == 0.0
  {
    if tmNow <= st.tmLastHrm + 5000 then st.lastHrm else 0.0
  }

  /** setId asserts that ids only toggle: a negative id replaces a set one and vice versa. */
  predicate IdChangeAllowed(current: int, newId: int)
  {
    (newId < 0 ==> current >= 0) && (newId >= 0 ==> current < 0)
  }

  class DataRecorder {
    var lastPower: real
    var tmLastPower: int
    var id: int
    var tmFinish: int
    var tmLastPacket: int
    var powerHistory: seq<HistoryElement>
    var lastHrm: real
    var tmLastHrm: int

    function State(): RecorderState
      reads this
    {
      RecorderState(lastPower, tmLastPower, id, tmFinish, tmLastPacket, powerHistory, lastHrm, tmLastHrm)
    }

    constructor()
      ensures State() == FreshRecorder
    {
      lastPower, tmLastPower, id, tmFinish, tmLastPacket := 0.0, 0, -1, -1, -1;
      powerHistory, lastHrm, tmLastHrm := [], 0.0, 0;
    }

    predicate IsPowerValid(tmNow: int)
      reads this
    {
      tmNow - tmLastPower < 5000
    }

    /**
     * getPowerAverageForLastNSeconds: walk back from the newest power sample
     * while it is no older than the window, summing and counting.
     */
    method PowerAverageForLastNSeconds(tmNow: int, seconds: real) returns (r: Option<real>)
      ensures r == RecentAverage(powerHistory, tmNow, seconds)
    {
      var h := powerHistory;
      var sum := 0.0;
      var count := 0;
      var tmFirst := tmNow as real - seconds * 1000.0;
      var x := |h| - 1;
      while x >= 0
        invariant -1 <= x < |h|
        invariant count == |h| - 1 - x
        invariant sum == SumValues(h[x + 1..])
        invariant RecentFrom(h, tmFirst, |h|) == RecentFrom(h, tmFirst, x + 1)
        decreases x + 1
      {
        if (h[x].tm as real) < tmFirst {
          // done adding!
          break;
        }
        RecentStep(h, tmFirst, x);
        sum := sum + h[x].distance;
        count := count + 1;
        x := x - 1;
      }
      RecentDone(h, tmNow, seconds, x);
      if count == 0 {
        r := None;
      } else {
        r := Some(sum / count as real);
      }
    }

    method NotifyPower(tmNow: int, watts: real)
      modifies this
      ensures State() == old(State()).(lastPower := watts, tmLastPower := tmNow,
                                       powerHistory := old(powerHistory) + [HistoryElement(tmNow, watts)])
    {
      lastPower := watts;
      tmLastPower := tmNow;
      powerHistory := powerHistory + [HistoryElement(tmNow, watts)];
    }

    method NotifyHrm(tmNow: int, hrm: real)
      modifies this
      ensures State() == old(State()).(lastHrm := hrm, tmLastHrm := tmNow)
    {
      tmLastHrm := tmNow;
      lastHrm := hrm;
    }

    function GetLastHrm(tmNow: int): real
      reads this
    {
      LastHrm(State(), tmNow)
    }

    method SetFinishTime(tmNow: int)
      modifies this
      ensures State() == old(State()).(tmFinish := tmNow)
    {
      tmFinish := tmNow;
    }

    function RaceTimeSeconds(tmRaceStart: int): real
      reads this
    {
      (tmFinish - tmRaceStart) as real / 1000.0
    }

    predicate IsFinished()
      reads this
    {
      tmFinish >= 0
    }

    function MsSinceLastPacket(tmNow: int): int
      reads this
    {
      MaxInt(0, tmNow - tmLastPacket)
    }

    method NotePacket(tmNow: int)
      modifies this
      ensures State() == old(State()).(tmLastPacket := tmNow)
    {
      tmLastPacket := tmNow;
    }

    method SetId(newId: int)
      requires IdChangeAllowed(id, newId)
      modifies this
      ensures State() == old(State()).(id := newId)
    {
      id := newId;
    }
  }

  // ---------------------------------------------------------------------
  // User

  /** The fields of a User that its own methods change, as a value. */
  datatype UserState = UserState(
    name: string, handicap: real, typeFlags: bv32, tmLastHandicapRevision: int,
    lastT: real, speed: real, position: real, smoothDelta: real, tmSmoothDelta: int,
    distanceHistory: seq<HistoryElement>, lastElevation: real, lastSlopeWholePercent: real,
    lastDraftSaving: DraftSavings, lastDraftLength: real, lastDraftUser: User?,
    joulesSaved: real, joulesUsed: map<JoulesUsedClass, real>)

  /** physicsTick's guard: the step runs only for 0 <= dt < 1 s. */
  predicate TickAdmitted(dt: real) { 0.0 <= dt < 1.0 }

  /** setLastWattsSaved: the saving is counted only away from the starting corral. */
  function WithWattsSaved(st: UserState, dt: real, watts: real, pctOfMax: real, fromDistance: real): (r: UserState)
    ensures r.position == st.position && r.speed == st.speed && r.distanceHistory == st.distanceHistory
    ensures r.name == st.name && r.handicap == st.handicap && r.typeFlags == st.typeFlags
  {
    if fromDistance > 5.0 then
      st.(joulesSaved := st.joulesSaved + dt * watts, lastDraftSaving := DraftSavings(watts, pctOfMax, fromDistance))
    else
      st
  }

  /**
   * The drafting part of physicsTick (run when the rider is past 5 m): the
   * draft length, then either the saving behind the picked leader or a
   * zero saving and no leader.
   */
  function DraftedState(st: UserState, dt: real, pick: Option<DraftPick>, leader: User?, leaderCount: nat): UserState
    requires ValidPick(pick)
  {
    var st1 := st.(lastDraftLength := DraftingFar * DraftModForSpeed(st.speed));
    match pick
    case None =>
      WithWattsSaved(st1, dt, 0.0, 0.0, st.position).(lastDraftUser := null)
    case Some(p) =>
      var mult := DraftMultiplier(pick, leaderCount);
      var myPct := DraftPct(p.gap, p.effectMod);
      WithWattsSaved(st1.(lastDraftUser := leader), dt, WattsSaved(mult, st.speed), 1.0 - myPct, st.position + p.gap)
  }

  /** Past 5 m every drafting tick is counted: saved joules grow by dt times the watts saved. */
  lemma {:induction false} DraftSavingCounted(st: UserState, dt: real, pick: Option<DraftPick>, leader: User?, leaderCount: nat)
    requires ValidPick(pick) && st.position > 5.0
    ensures var r := DraftedState(st, dt, pick, leader, leaderCount);
      r.joulesSaved == st.joulesSaved + dt * (if pick.None? then 0.0 else WattsSaved(DraftMultiplier(pick, leaderCount), st.speed))
      && r.lastDraftUser == (if pick.None? then null else leader)
      && r.position == st.position && r.speed == st.speed
  {
  }

  /** The drafting block of physicsTick runs only past 5 m, where the starting corral ends. */
  function DraftStep(st: UserState, dt: real, pick: Option<DraftPick>, leader: User?, leaderCount: nat): (r: UserState)
    requires ValidPick(pick)
    ensures r.position == st.position && r.speed == st.speed && r.distanceHistory == st.distanceHistory
    ensures r.name == st.name && r.handicap == st.handicap && r.typeFlags == st.typeFlags
  {
    if st.position > 5.0 then DraftedState(st, dt, pick, leader, leaderCount) else st
  }

  /** The aero multiplier of a tick: 1 in the starting corral. */
  function DraftStepMultiplier(st: UserState, pick: Option<DraftPick>, leaderCount: nat): real
    requires ValidPick(pick)
  {
    if st.position > 5.0 then DraftMultiplier(pick, leaderCount) else 1.0
  }

  /** The speed step of physicsTick: the forces at the slope give the new speed. */
  function Accelerated(st: UserState, dt: real, slope: real, tp: real, mult: real, factor: real, massKg: real): (r: UserState)
    requires factor >= 0.0 && massKg > 0.0
    ensures r.speed >= 0.5
    ensures r.position == st.position && r.distanceHistory == st.distanceHistory
  {
    var aero := AeroForce(st.speed) * mult;
    st.(speed := NextSpeed(st.speed, TotalForce(st.speed, tp, aero, SlopeForce(slope, factor, massKg), massKg), massKg, dt),
        lastSlopeWholePercent := slope * 100.0)
  }

  /** The position step of physicsTick at the new speed, with elevation, history and joules. */
  function Advanced(st: UserState, tmNow: int, dt: real, course: RideMap, slope: real, tp: real): (r: UserState)
    ensures r.position <= course.length
    ensures st.speed >= 0.0 && dt >= 0.0 && 0.0 <= course.length && st.position <= course.length ==> st.position <= r.position
    ensures r.lastElevation == course.elevation(r.position)
    ensures Spaced(st.distanceHistory) ==> Spaced(r.distanceHistory)
    ensures r.speed == st.speed
  {
    var position := NextPosition(st.position, course.length, st.speed, dt);
    PositionAdvances(st.position, course.length, st.speed, dt);
    HistoryStaysSpaced(st.distanceHistory, tmNow, position);
    st.(position := position,
        lastElevation := course.elevation(position),
        distanceHistory := HistoryAfter(st.distanceHistory, tmNow, position),
        joulesUsed := JoulesAfter(st.joulesUsed, position, course.length, slope, dt * tp))
  }

  /**
   * The motion part of physicsTick, given the transformed power, the draft
   * multiplier and the slope factor at the current position: new speed,
   * then position, elevation, slope, distance history and joules.
   */
  function MovedState(st: UserState, tmNow: int, dt: real, course: RideMap, tp: real, mult: real,
                      factor: real, massKg: real): (r: UserState)
    requires factor >= 0.0 && massKg > 0.0
    ensures r.speed >= 0.5
    ensures r.position <= course.length
    ensures dt >= 0.0 && 0.0 <= course.length && st.position <= course.length ==> st.position <= r.position
    ensures r.lastElevation == course.elevation(r.position)
    ensures Spaced(st.distanceHistory) ==> Spaced(r.distanceHistory)
    ensures r.name == st.name && r.handicap == st.handicap && r.typeFlags == st.typeFlags && r.lastT == st.lastT
  {
    var slope := SlopeAtDistance(course, st.position);
    Advanced(Accelerated(st, dt, slope, tp, mult, factor, massKg), tmNow, dt, course, slope, tp)
  }

  /** The picked leader, if any, is somebody else: its gap is at least 3 m. */
  lemma {:induction false} LeaderIsAnother(me: real, others: seq<User>, views: seq<RiderView>, i: nat)
    requires |views| == |others| && i < |others|
    requires views[i].position == me
    ensures Nearest(me, views).Some? ==> Nearest(me, views).value.ix != i
  {
    NearestSpec(me, views);
  }

  /** One step of the search: the pick over a list extended by one rider. */
  lemma {:induction false} NearestStep(me: real, vs: seq<RiderView>, v: RiderView)
    ensures var prev := Nearest(me, vs);
      Nearest(me, vs + [v])
      == if Draftable(me, v) && (prev.None? || GapTo(me, v) < prev.value.gap)
         then Some(DraftPick(|vs|, GapTo(me, v), DraftModForSpeed(v.speed)))
         else prev
  {
    assert (vs + [v])[..|vs|] == vs;
  }

  function ViewOf(u: User): RiderView
    reads u
  {
    RiderView(u.position, u.speed)
  }

  function Views(others: seq<User>): (r: seq<RiderView>)
    reads others
    ensures |r| == |others|
    ensures forall i :: 0 <= i < |others| ==> r[i] == ViewOf(others[i])
  {
    if others == [] then [] else Views(others[..|others| - 1]) + [ViewOf(others[|others| - 1])]
  }

  /** How many riders drafted the picked leader in its last cycle; 0 without a leader. */
  function LeaderCount(pick: Option<DraftPick>, others: seq<User>): nat
    requires pick.Some? ==> pick.value.ix < |others|
    reads others, if pick.Some? then {others[pick.value.ix].draft} else {}
  {
    if pick.Some? then others[pick.value.ix].draft.DrafteeCount() else 0
  }

  /** The rider the search picked, or null. */
  function LeaderOf(pick: Option<DraftPick>, others: seq<User>): User?
    requires pick.Some? ==> pick.value.ix < |others|
  {
    if pick.Some? then others[pick.value.ix] else null
  }

  /** The draft cycle of the leader the search picks among `others`, if it picks one. */
  function LeaderDraft(me: real, others: seq<User>): set<DraftCycle>
    reads others
  {
    var pick := Nearest(me, Views(others));
    if pick.Some? then {others[pick.value.ix].draft} else {}
  }

  lemma {:induction false} ViewsStep(others: seq<User>, i: nat)
    requires i < |others|
    ensures Views(others[..i + 1]) == Views(others[..i]) + [ViewOf(others[i])]
  {
    assert others[..i + 1][..i] == others[..i];
  }

  /**
   * physicsTick on the value level. The clock always moves to tmNow; a gap
   * outside [0, 1) s does nothing else. Otherwise the power is transformed
   * by the course, drafting runs past 5 m (the pick is the search over the
   * riders' views; the leader and its draftee count are what the search
   * found), and the motion step follows with the slope factor at the
   * current position.
   */
  function AfterTick(st: UserState, tmNow: int, course: RideMap, power: real, views: seq<RiderView>,
                     leader: User?, leaderCount: nat, slopeFactor: real -> real, massKg: real): (r: UserState)
    requires massKg > 0.0 && (course.transform == HandicapNormalised ==> st.handicap != 0.0)
    requires forall s :: slopeFactor(s) >= 0.0
    ensures r.lastT == Seconds(tmNow)
    ensures !TickAdmitted(Seconds(tmNow) - st.lastT) ==> r == st.(lastT := Seconds(tmNow))
    ensures TickAdmitted(Seconds(tmNow) - st.lastT) ==>
      r.speed >= 0.5 && r.position <= course.length
      && r.lastElevation == course.elevation(r.position)
      && (0.0 <= course.length && st.position <= course.length ==> st.position <= r.position)
      && (Spaced(st.distanceHistory) ==> Spaced(r.distanceHistory))
      && r.name == st.name && r.handicap == st.handicap && r.typeFlags == st.typeFlags
  {
    var t := Seconds(tmNow);
    var dt := t - st.lastT;
    if !TickAdmitted(dt) then
      st.(lastT := t)
    else
      var tp := TransformedPower(course.transform, power, st.handicap);
      var pick := Nearest(st.position, views);
      NearestIsValid(st.position, views);
      var st1 := DraftStep(st, dt, pick, leader, leaderCount).(lastT := t);
      var mult := DraftStepMultiplier(st, pick, leaderCount);
      MovedState(st1, tmNow, dt, course, tp, mult, slopeFactor(SlopeAtDistance(course, st1.position)), massKg)
  }

  /** An admitted tick is the drafting step, then the clock, then the motion at the transformed power. */
  lemma AdmittedTick(st: UserState, tmNow: int, course: RideMap, power: real, views: seq<RiderView>,
                     leader: User?, leaderCount: nat, slopeFactor: real -> real, massKg: real)
    requires massKg > 0.0 && (course.transform == HandicapNormalised ==> st.handicap != 0.0)
    requires forall s :: slopeFactor(s) >= 0.0
    requires TickAdmitted(Seconds(tmNow) - st.lastT)
    ensures (NearestIsValid(st.position, views);
      var dt, pick := Seconds(tmNow) - st.lastT, Nearest(st.position, views);
      AfterTick(st, tmNow, course, power, views, leader, leaderCount, slopeFactor, massKg)
      == MovedState(DraftStep(st, dt, pick, leader, leaderCount).(lastT := Seconds(tmNow)), tmNow, dt, course,
                    TransformedPower(course.transform, power, st.handicap), DraftStepMultiplier(st, pick, leaderCount),
                    slopeFactor(SlopeAtDistance(course, st.position)), massKg))
  {
  }

  /**
   * absorbNameUpdate on the value level. The name is always taken; a
   * finite handicap replaces the current one and, when it is higher,
   * stamps the revision time; a non-local rider takes the type flags.
   */
  function NameAbsorbed(st: UserState, tmNow: int, name: string, typeFlags: bv32, handicap: JsNumber): (r: UserState)
    ensures r.name == name
    ensures r.handicap == (if handicap.Finite? then handicap.v else st.handicap)
    ensures r.tmLastHandicapRevision
            == (if handicap.Finite? && handicap.v > st.handicap then tmNow else st.tmLastHandicapRevision)
    ensures r.typeFlags == (if HasFlag(st.typeFlags, Local) then st.typeFlags else typeFlags)
    ensures r.position == st.position && r.speed == st.speed && r.joulesUsed == st.joulesUsed
  {
    var st1 := st.(name := name);
    var st2 := match handicap
      case Finite(v) =>
        (if v > st.handicap then st1.(tmLastHandicapRevision := tmNow) else st1).(handicap := v)
      case _ => st1;
    if !HasFlag(st.typeFlags, Local) then st2.(typeFlags := typeFlags) else st2
  }

  /** A rider absorbing its own name, type and handicap, as the server echoes them back, is unchanged. */
  lemma {:induction false} NameAbsorbOwn(st: UserState, tmNow: int)
    ensures NameAbsorbed(st, tmNow, st.name, st.typeFlags, Finite(st.handicap)) == st
  {
  }

  /** Absorbing the same name update twice is absorbing it once. */
  lemma {:induction false} NameAbsorbIdempotent(st: UserState, tmNow: int, name: string, typeFlags: bv32, handicap: JsNumber)
    ensures NameAbsorbed(NameAbsorbed(st, tmNow, name, typeFlags, handicap), tmNow, name, typeFlags, handicap)
         == NameAbsorbed(st, tmNow, name, typeFlags, handicap)
  {
  }

  /** A local rider's type flags survive any name update; a remote one's follow the server. */
  lemma {:induction false} LocalFlagsKept(st: UserState, tmNow: int, name: string, typeFlags: bv32, handicap: JsNumber)
    requires HasFlag(st.typeFlags, Local)
    ensures HasFlag(NameAbsorbed(st, tmNow, name, typeFlags, handicap).typeFlags, Local)
  {
  }

  /**
   * absorbPositionUpdate on the rider's fields: the server's speed and
   * distance are taken, and the gap between them and what the UI showed
   * becomes the correction to blend in from tmNow.
   */
  function PositionAbsorbed(st: UserState, tmNow: int, update: PositionUpdateUser): UserState
  {
    var delta := update.distance - UiDistance(st.position, st.smoothDelta, st.tmSmoothDelta, tmNow);
    st.(smoothDelta := delta, tmSmoothDelta := tmNow, speed := update.speed, position := update.distance)
  }

  /**
   * The blend hides the jump: at tmNow the UI shows what it showed before
   * the update, a second later it shows the server's distance, and in
   * between it lies between the two.
   */
  lemma {:induction false} PositionAbsorbSmooth(st: UserState, tmNow: int, update: PositionUpdateUser, tmLater: int)
    ensures var r := PositionAbsorbed(st, tmNow, update);
      UiDistance(r.position, r.smoothDelta, r.tmSmoothDelta, tmNow)
      == UiDistance(st.position, st.smoothDelta, st.tmSmoothDelta, tmNow)
    ensures var r := PositionAbsorbed(st, tmNow, update);
      tmLater >= tmNow + 1000 ==> UiDistance(r.position, r.smoothDelta, r.tmSmoothDelta, tmLater) == update.distance
    ensures var r := PositionAbsorbed(st, tmNow, update);
      var before := UiDistance(st.position, st.smoothDelta, st.tmSmoothDelta, tmNow);
      var shown := UiDistance(r.position, r.smoothDelta, r.tmSmoothDelta, tmLater);
      Min(update.distance, before) <= shown <= Max(update.distance, before)
  {
    var r := PositionAbsorbed(st, tmNow, update);
    UiDistanceBetween(r.position, r.smoothDelta, r.tmSmoothDelta, tmLater);
  }

  /** The recorder side of absorbPositionUpdate: a non-local rider takes the server's power and heart rate. */
  function RecorderAbsorbed(rs: RecorderState, local: bool, tmNow: int, update: PositionUpdateUser): (r: RecorderState)
    ensures r.tmLastPacket == tmNow && r.id == rs.id && r.tmFinish == rs.tmFinish
    ensures local ==> r == rs.(tmLastPacket := tmNow)
    ensures !local ==> r.lastPower == update.power && r.lastHrm == update.hrm
                       && r.powerHistory == rs.powerHistory + [HistoryElement(tmNow, update.power)]
  {
    var rs1 := if local then rs else
      rs.(lastPower := update.power, tmLastPower := tmNow,
          powerHistory := rs.powerHistory + [HistoryElement(tmNow, update.power)],
          lastHrm := update.hrm, tmLastHrm := tmNow);
    rs1.(tmLastPacket := tmNow)
  }

  /** getPositionUpdate on a rider's state and its recorder's state. */
  function PositionUpdateOf(st: UserState, rs: RecorderState, tmNow: int): PositionUpdateUser
  {
    PositionUpdateUser(rs.id, st.position, st.speed, rs.lastPower, LastHrm(rs, tmNow))
  }

  /**
   * After absorbing a server row meant for it, a rider reports the row back:
   * its distance and speed, and for a rider that is not local also its power
   * and heart rate.
   */
  lemma {:induction false} AbsorbedUpdateEchoes(st: UserState, rs: RecorderState, local: bool, tmNow: int, update: PositionUpdateUser)
    requires rs.id == update.id
    ensures var r := PositionUpdateOf(PositionAbsorbed(st, tmNow, update), RecorderAbsorbed(rs, local, tmNow, update), tmNow);
      r.id == update.id && r.distance == update.distance && r.speed == update.speed
      && (!local ==> r.power == update.power && r.hrm == update.hrm)
      && (local ==> r.power == rs.lastPower)
  {
  }

  class User {
    const rec: DataRecorder
    const draft: DraftCycle
    const massKg: real
    var name: string
    var handicap: real
    var typeFlags: bv32
    var tmLastHandicapRevision: int
    var lastT: real
    var speed: real
    var position: real
    var smoothDelta: real
    var tmSmoothDelta: int
    var distanceHistory: seq<HistoryElement>
    var lastElevation: real
    var lastSlopeWholePercent: real
    var lastDraftSaving: DraftSavings
    var lastDraftLength: real
    var lastDraftUser: User?
    var joulesSaved: real
    var joulesUsed: map<JoulesUsedClass, real>

    function State(): UserState
      reads this
    {
      UserState(name, handicap, typeFlags, tmLastHandicapRevision,
                lastT, speed, position, smoothDelta, tmSmoothDelta,
                distanceHistory, lastElevation, lastSlopeWholePercent,
                lastDraftSaving, lastDraftLength, lastDraftUser, joulesSaved, joulesUsed)
    }

    /** The clock reading the source takes at construction is `tmNow`. */
    constructor(name: string, massKg: real, handicap: real, typeFlags: bv32, tmNow: int)
      ensures fresh(rec) && fresh(draft)
      ensures this.massKg == massKg
      ensures State() == UserState(name, handicap, typeFlags, 0, Seconds(tmNow), 0.0, 0.0, 0.0, 0,
                                   [], 0.0, 0.0, DraftSavings(0.0, 0.0, 0.0), 0.0, null, 0.0, map[])
      ensures rec.State() == FreshRecorder
      ensures draft.State() == CycleState({}, {}, [], 0, 0.0)
    {
      rec := new DataRecorder();
      draft := new DraftCycle();
      this.massKg := massKg;
      this.name := name;
      this.handicap := handicap;
      this.typeFlags := typeFlags;
      tmLastHandicapRevision := 0;
      lastT := Seconds(tmNow);
      speed, position, smoothDelta, tmSmoothDelta := 0.0, 0.0, 0.0, 0;
      distanceHistory, lastElevation, lastSlopeWholePercent := [], 0.0, 0.0;
      lastDraftSaving, lastDraftLength, lastDraftUser := DraftSavings(0.0, 0.0, 0.0), 0.0, null;
      joulesSaved, joulesUsed := 0.0, map[];
    }

    /** setHandicap asserts that a handicap only goes up, except when a rider joins. */
    method SetHandicap(watts: real, changeReason: HandicapChangeReason)
      requires watts >= handicap || changeReason == UserJoined
      modifies this
      ensures State() == old(State()).(handicap := watts)
    {
      handicap := watts;
    }

    function GetDistanceForUi(tmNow: int): real
      reads this
    {
      UiDistance(position, smoothDelta, tmSmoothDelta, tmNow)
    }

    function GetPositionUpdate(tmNow: int): (r: PositionUpdateUser)
      reads this, rec
      ensures r == PositionUpdateOf(State(), rec.State(), tmNow)
    {
      PositionUpdateUser(rec.id, position, speed, rec.lastPower, rec.GetLastHrm(tmNow))
    }

    function GetHandicapSecondsSaved(): real
      reads this
      requires handicap != 0.0
    {
      HandicapSecondsSaved(joulesSaved, handicap)
    }

    function GetHandicapSecondsUsed(): map<JoulesUsedClass, real>
      reads this
    {
      HandicapSecondsUsed(joulesUsed)
    }

    predicate HasDraftersThisCycle()
      reads draft
    {
      draft.DrafteeCount() > 0
    }

    predicate IsDraftingLocalUser()
      reads this, lastDraftUser
    {
      lastDraftUser != null && HasFlag(lastDraftUser.typeFlags, Local)
    }

    /**
     * The draft-target search of physicsTick: over the other riders in
     * order, keep the one with the smallest gap in its draft zone.
     */
    method FindDraftTarget(others: seq<User>) returns (pick: Option<DraftPick>)
      ensures pick == Nearest(position, Views(others))
    {
      pick := None;
      var i := 0;
      while i < |others|
        invariant 0 <= i <= |others|
        invariant pick == Nearest(position, Views(others[..i]))
      {
        var user := others[i];
        var userAhead := user.position - position;
        var userEffectMod := DraftModForSpeed(user.speed);
        ghost var view := ViewOf(user);
        ghost var seen := Views(others[..i]);
        assert GapTo(position, view) == userAhead && DraftModForSpeed(view.speed) == userEffectMod;
        if userAhead >= DraftingClose * 2.0 && userAhead <= DraftingFar * userEffectMod {
          if pick.None? || userAhead < pick.value.gap {
            pick := Some(DraftPick(i, userAhead, userEffectMod));
          }
        }
        NearestStep(position, seen, view);
        ViewsStep(others, i);
        i := i + 1;
      }
      assert others[..|others|] == others;
    }

    /** setLastWattsSaved. */
    method SetLastWattsSaved(dt: real, watts: real, pctOfMax: real, fromDistance: real)
      modifies this
      ensures State() == WithWattsSaved(old(State()), dt, watts, pctOfMax, fromDistance)
    {
      if fromDistance > 5.0 { // don't count "savings" when everyone is in the starting corral
        joulesSaved := joulesSaved + dt * watts;
        lastDraftSaving := DraftSavings(watts, pctOfMax, fromDistance);
      }
    }

    /**
     * The drafting block of physicsTick: past 5 m, roll this rider's
     * draftee cycle, pick the leader, tell the leader about this draftee,
     * and record the saving. Returns the multiplier for the aero force. The
     * search reads only the other riders' positions and speeds, so the model
     * runs it before the cycle roll and the draft-length update; the outcome
     * is the same.
     */
    method Draft(tmNow: int, dt: real, others: seq<User>) returns (mult: real)
      requires forall u :: u in others && u != this ==> u.draft != draft
      modifies this, draft, LeaderDraft(position, others)
      ensures ValidPick(Nearest(old(position), old(Views(others))))
      ensures var pick := Nearest(old(position), old(Views(others)));
        pick.Some? ==> pick.value.ix < |others| && others[pick.value.ix] != this && others[pick.value.ix].draft != draft
      ensures var pick := Nearest(old(position), old(Views(others)));
        mult == DraftStepMultiplier(old(State()), pick, old(LeaderCount(pick, others)))
      ensures var pick := Nearest(old(position), old(Views(others)));
        State() == DraftStep(old(State()), dt, pick, LeaderOf(pick, others), old(LeaderCount(pick, others)))
      ensures draft.State() == if old(position) > 5.0 then Checked(old(draft.State()), tmNow) else old(draft.State())
      ensures var pick := Nearest(old(position), old(Views(others)));
        pick.Some? ==>
          others[pick.value.ix].draft.State()
          == if old(position) > 5.0
             then Notified(old(others[pick.value.ix].draft.State()), tmNow, rec.id,
                           DrafteeStat(old(position), DraftPct(pick.value.gap, pick.value.effectMod)))
             else old(others[pick.value.ix].draft.State())
      ensures rec.State() == old(rec.State())
    {
      var pick := FindDraftTarget(others);
      NearestIsValid(position, Views(others));
      var leader: User? := null;
      if pick.Some? {
        leader := others[pick.value.ix];
        if leader == this {
          LeaderIsAnother(position, others, Views(others), pick.value.ix);
          assert false;
        }
      }
      if position > 5.0 { // let's not engage drafting in the pre-start.
        mult := ApplyDraft(tmNow, dt, pick, leader);
      } else {
        mult := 1.0;
      }
    }

    /**
     * The drafting block once the leader is known: roll the cycle, set the
     * draft length, then draft behind the leader or record a zero saving.
     */
    method ApplyDraft(tmNow: int, dt: real, pick: Option<DraftPick>, leader: User?) returns (mult: real)
      requires ValidPick(pick) && (pick.Some? <==> leader != null)
      requires leader != null ==> leader != this && leader.draft != draft
      modifies this, draft, if leader != null then {leader.draft} else {}
      ensures var count := if leader != null then old(leader.draft.DrafteeCount()) else 0;
        mult == DraftMultiplier(pick, count)
        && State() == DraftedState(old(State()), dt, pick, leader, count)
      ensures draft.State() == Checked(old(draft.State()), tmNow)
      ensures leader != null ==>
        leader.draft.State() == Notified(old(leader.draft.State()), tmNow, rec.id,
                                         DrafteeStat(old(position), DraftPct(pick.value.gap, pick.value.effectMod)))
      ensures rec.State() == old(rec.State())
    {
      ghost var st0 := State();
      draft.DrafteeCheck(tmNow);
      lastDraftLength := DraftingFar * DraftModForSpeed(speed);
      ghost var st1 := State();
      assert st1 == st0.(lastDraftLength := DraftingFar * DraftModForSpeed(st0.speed));
      if leader != null {
        var p := pick.value;
        mult := DraftBehind(tmNow, dt, leader, p);
        assert State() == WithWattsSaved(st1.(lastDraftUser := leader), dt, WattsSaved(mult, st0.speed),
                                         1.0 - DraftPct(p.gap, p.effectMod), st0.position + p.gap);
      } else {
        SetLastWattsSaved(dt, 0.0, 0.0, position);
        lastDraftUser := null;
        mult := 1.0;
        assert State() == WithWattsSaved(st1, dt, 0.0, 0.0, st0.position).(lastDraftUser := null);
      }
    }

    /**
     * Drafting behind the picked leader: read how many riders drafted it
     * last cycle, tell it about this draftee, and record the saving.
     */
    method DraftBehind(tmNow: int, dt: real, closest: User, p: DraftPick) returns (mult: real)
      requires closest != this && closest.draft != draft && ValidPick(Some(p))
      modifies this, closest.draft
      ensures mult == DraftMultiplier(Some(p), old(closest.draft.DrafteeCount()))
      ensures closest.draft.State() == Notified(old(closest.draft.State()), tmNow, rec.id,
                                                DrafteeStat(old(position), DraftPct(p.gap, p.effectMod)))
      ensures State() == WithWattsSaved(old(State()).(lastDraftUser := closest), dt, WattsSaved(mult, old(speed)),
                                        1.0 - DraftPct(p.gap, p.effectMod), old(position) + p.gap)
    {
      // if there's 10 guys clustered behind a single rider, they're not going to get
      // as much benefit as a well-managed paceline
      var cRidersDraftingLastCycle := closest.draft.DrafteeCount();
      mult := DraftMultiplier(Some(p), cRidersDraftingLastCycle);
      var myPct := DraftPct(p.gap, p.effectMod);
      closest.draft.NotifyDrafteeThisCycle(tmNow, rec.id, DrafteeStat(position, myPct));
      lastDraftUser := closest;
      SetLastWattsSaved(dt, WattsSaved(mult, speed), 1.0 - myPct, position + p.gap);
    }

    /**
     * The motion part of physicsTick: slope, forces, speed, position,
     * elevation, history, the finish time and the joules. `factor` stands
     * for sqrt(sin^2 + (cos - 1)^2) of the slope's angle.
     */
    method Move(tmNow: int, dt: real, course: RideMap, transformedPower: real, mult: real, factor: real)
      requires factor >= 0.0 && massKg > 0.0
      modifies this, rec
      ensures State() == MovedState(old(State()), tmNow, dt, course, transformedPower, mult, factor, massKg)
      ensures rec.State() == old(rec.State()).(tmFinish := FinishAfter(old(rec.tmFinish), old(position), position, course.length, tmNow))
    {
      var slope := SlopeAtDistance(course, position);
      Accelerate(dt, slope, transformedPower, mult, factor);
      Advance(tmNow, dt, course, slope, transformedPower);
    }

    /** The new speed from the forces on the rider, and the slope it felt. */
    method Accelerate(dt: real, slope: real, transformedPower: real, mult: real, factor: real)
      requires factor >= 0.0 && massKg > 0.0
      modifies this
      ensures State() == Accelerated(old(State()), dt, slope, transformedPower, mult, factor, massKg)
    {
      lastSlopeWholePercent := slope * 100.0;
      var slopeForce := SlopeForce(slope, factor, massKg);
      var aeroForce := AeroForce(speed) * mult;
      var totalForce := TotalForce(speed, transformedPower, aeroForce, slopeForce, massKg);
      speed := NextSpeed(speed, totalForce, massKg, dt);
      assert totalForce == TotalForce(old(speed), transformedPower, AeroForce(old(speed)) * mult,
                                      SlopeForce(slope, factor, massKg), massKg);
    }

    /** The new position at the new speed, then elevation, history, the finish time and joules. */
    method Advance(tmNow: int, dt: real, course: RideMap, slope: real, transformedPower: real)
      modifies this, rec
      ensures State() == Advanced(old(State()), tmNow, dt, course, slope, transformedPower)
      ensures rec.State() == old(rec.State()).(tmFinish := FinishAfter(old(rec.tmFinish), old(position), position, course.length, tmNow))
    {
      var lastPosition := position;
      position := NextPosition(position, course.length, speed, dt);
      lastElevation := course.elevation(position);
      distanceHistory := HistoryAfter(distanceHistory, tmNow, position);
      if lastPosition < course.length && position >= course.length {
        rec.SetFinishTime(tmNow);
      }
      joulesUsed := JoulesAfter(joulesUsed, position, course.length, slope, dt * transformedPower);
    }

    /**
     * physicsTick. The clock and the slope factor are parameters; `others`
     * may hold this rider too (the draft zone starts 3 m ahead, so it is
     * never its own leader). The clock field is written after the drafting
     * block, which does not read it.
     */
    method PhysicsTick(tmNow: int, course: RideMap, others: seq<User>, slopeFactor: real -> real)
      requires massKg > 0.0 && (course.transform == HandicapNormalised ==> handicap != 0.0)
      requires forall s :: slopeFactor(s) >= 0.0
      requires forall u :: u in others && u != this ==> u.draft != draft
      modifies this, rec, draft, LeaderDraft(position, others)
      ensures lastT == Seconds(tmNow) && typeFlags == old(typeFlags) && handicap == old(handicap)
      ensures TickAdmitted(Seconds(tmNow) - old(lastT)) ==> speed >= 0.5 && position <= course.length
      ensures !TickAdmitted(Seconds(tmNow) - old(lastT)) ==> State() == old(State()).(lastT := Seconds(tmNow))
      ensures var pick := Nearest(old(position), old(Views(others)));
        pick.Some? ==> pick.value.ix < |others|
      ensures var pick := Nearest(old(position), old(Views(others)));
        State() == AfterTick(old(State()), tmNow, course, old(rec.lastPower), old(Views(others)),
                             LeaderOf(pick, others), old(LeaderCount(pick, others)), slopeFactor, massKg)
      ensures rec.State() == if TickAdmitted(Seconds(tmNow) - old(lastT))
        then old(rec.State()).(tmFinish := FinishAfter(old(rec.tmFinish), old(position), position, course.length, tmNow))
        else old(rec.State())
      ensures draft.State() == if TickAdmitted(Seconds(tmNow) - old(lastT)) && old(position) > 5.0
        then Checked(old(draft.State()), tmNow) else old(draft.State())
      ensures var pick := Nearest(old(position), old(Views(others)));
        pick.Some? ==>
          others[pick.value.ix].draft.State()
          == if TickAdmitted(Seconds(tmNow) - old(lastT)) && old(position) > 5.0
             then Notified(old(others[pick.value.ix].draft.State()), tmNow, rec.id,
                           DrafteeStat(old(position), DraftPct(pick.value.gap, pick.value.effectMod)))
             else old(others[pick.value.ix].draft.State())
    {
      var t := Seconds(tmNow);
      var dtSeconds := t - lastT;
      if dtSeconds < 0.0 || dtSeconds >= 1.0 {
        NearestIsValid(position, Views(others));
        lastT := t;
        return;
      }
      RideTick(tmNow, dtSeconds, course, others, slopeFactor);
    }

    /** Ride, stated as the value-level tick it performs. */
    method RideTick(tmNow: int, dtSeconds: real, course: RideMap, others: seq<User>, slopeFactor: real -> real)
      requires TickAdmitted(dtSeconds) && dtSeconds == Seconds(tmNow) - lastT
      requires massKg > 0.0 && (course.transform == HandicapNormalised ==> handicap != 0.0)
      requires forall s :: slopeFactor(s) >= 0.0
      requires forall u :: u in others && u != this ==> u.draft != draft
      modifies this, rec, draft, LeaderDraft(position, others)
      ensures var pick := Nearest(old(position), old(Views(others)));
        pick.Some? ==> pick.value.ix < |others|
      ensures var pick := Nearest(old(position), old(Views(others)));
        State() == AfterTick(old(State()), tmNow, course, old(rec.lastPower), old(Views(others)),
                             LeaderOf(pick, others), old(LeaderCount(pick, others)), slopeFactor, massKg)
      ensures rec.State() == old(rec.State()).(tmFinish := FinishAfter(old(rec.tmFinish), old(position), position, course.length, tmNow))
      ensures draft.State() == if old(position) > 5.0 then Checked(old(draft.State()), tmNow) else old(draft.State())
      ensures var pick := Nearest(old(position), old(Views(others)));
        pick.Some? ==>
          others[pick.value.ix].draft.State()
          == if old(position) > 5.0
             then Notified(old(others[pick.value.ix].draft.State()), tmNow, rec.id,
                           DrafteeStat(old(position), DraftPct(pick.value.gap, pick.value.effectMod)))
             else old(others[pick.value.ix].draft.State())
    {
      ghost var st0, views := State(), Views(others);
      ghost var pick := Nearest(position, views);
      ghost var leader, count := LeaderOf(pick, others), LeaderCount(pick, others);
      AdmittedTick(st0, tmNow, course, rec.lastPower, views, leader, count, slopeFactor, massKg);
      Ride(tmNow, dtSeconds, course, others, slopeFactor);
    }

    /** physicsTick past its guard: transformed power, drafting past 5 m, the clock, then the motion. */
    method Ride(tmNow: int, dtSeconds: real, course: RideMap, others: seq<User>, slopeFactor: real -> real)
      requires TickAdmitted(dtSeconds) && dtSeconds == Seconds(tmNow) - lastT
      requires massKg > 0.0 && (course.transform == HandicapNormalised ==> handicap != 0.0)
      requires forall s :: slopeFactor(s) >= 0.0
      requires forall u :: u in others && u != this ==> u.draft != draft
      modifies this, rec, draft, LeaderDraft(position, others)
      ensures var pick := Nearest(old(position), old(Views(others)));
        pick.Some? ==> pick.value.ix < |others|
      ensures var pick := Nearest(old(position), old(Views(others)));
        var count := old(LeaderCount(pick, others));
        var drafted := DraftStep(old(State()), dtSeconds, pick, LeaderOf(pick, others), count).(lastT := Seconds(tmNow));
        ValidPick(pick)
        && State() == MovedState(drafted, tmNow, dtSeconds, course,
                                 TransformedPower(course.transform, old(rec.lastPower), old(handicap)),
                                 DraftStepMultiplier(old(State()), pick, count),
                                 slopeFactor(SlopeAtDistance(course, old(position))), massKg)
      ensures rec.State() == old(rec.State()).(tmFinish := FinishAfter(old(rec.tmFinish), old(position), position, course.length, tmNow))
      ensures draft.State() == if old(position) > 5.0 then Checked(old(draft.State()), tmNow) else old(draft.State())
      ensures var pick := Nearest(old(position), old(Views(others)));
        pick.Some? ==>
          others[pick.value.ix].draft.State()
          == if old(position) > 5.0
             then Notified(old(others[pick.value.ix].draft.State()), tmNow, rec.id,
                           DrafteeStat(old(position), DraftPct(pick.value.gap, pick.value.effectMod)))
             else old(others[pick.value.ix].draft.State())
    {
      // apply handicapping or other wackiness that the map might be applying
      var transformedPower := TransformedPower(course.transform, rec.lastPower, handicap);
      ghost var st0 := State();
      ghost var pick := Nearest(position, Views(others));
      NearestIsValid(position, Views(others));
      ghost var count := LeaderCount(pick, others);
      var mult := Draft(tmNow, dtSeconds, others);
      ghost var st1 := DraftStep(st0, dtSeconds, pick, LeaderOf(pick, others), count).(lastT := Seconds(tmNow));
      lastT := Seconds(tmNow);
      assert State() == st1;
      Move(tmNow, dtSeconds, course, transformedPower, mult, slopeFactor(SlopeAtDistance(course, position)));
      assert State() == MovedState(st1, tmNow, dtSeconds, course, transformedPower, DraftStepMultiplier(st0, pick, count),
                                   slopeFactor(SlopeAtDistance(course, st1.position)), massKg);
    }

    /** getSecondsAgoToCross: the first pair of history entries around `distance` crossed in the past. */
    method SecondsAgoToCross(tmNow: int, distance: real) returns (r: Option<real>)
      ensures r == CrossingFrom(distanceHistory, distance, tmNow, 0)
    {
      var x := 0;
      while x < |distanceHistory| - 1
        invariant 0 <= x
        invariant CrossingFrom(distanceHistory, distance, tmNow, x) == CrossingFrom(distanceHistory, distance, tmNow, 0)
        decreases |distanceHistory| - x
      {
        var hist := distanceHistory[x];
        var nextHist := distanceHistory[x + 1];
        if hist.distance < distance && nextHist.distance > distance {
          // we found when we were near the queried spot
          var tmAtThatDist := CrossTime(hist, nextHist, distance);
          if tmAtThatDist < tmNow as real {
            return Some((tmNow as real - tmAtThatDist) / 1000.0);
          }
        }
        x := x + 1;
      }
      r := None;
    }

    /** absorbNameUpdate; the handicap arrives as a JavaScript number and may be NaN or infinite. */
    method AbsorbNameUpdate(tmNow: int, name: string, typeFlags: bv32, handicap: JsNumber)
      modifies this
      ensures State() == NameAbsorbed(old(State()), tmNow, name, typeFlags, handicap)
    {
      this.name := name;
      if IsFinite(handicap) {
        if handicap.v > this.handicap {
          // remember the last time they bumped up our handicap
          tmLastHandicapRevision := tmNow;
        }
        this.handicap := handicap.v;
      }
      if !HasFlag(this.typeFlags, Local) {
        this.typeFlags := typeFlags;
      }
    }

    /**
     * absorbPositionUpdate: a non-local rider takes the server's power and
     * heart rate; every rider takes its speed and distance and blends the
     * correction into the UI over the next second.
     */
    method AbsorbPositionUpdate(tmNow: int, update: PositionUpdateUser)
      modifies this, rec
      ensures State() == PositionAbsorbed(old(State()), tmNow, update)
      ensures rec.State() == RecorderAbsorbed(old(rec.State()), HasFlag(old(typeFlags), Local), tmNow, update)
    {
      if !HasFlag(typeFlags, Local) {
        // we're a remote or AI user, so we should try to be as similar to the server as possible
        rec.NotifyPower(tmNow, update.power);
        rec.NotifyHrm(tmNow, update.hrm);
      }
      // how far off was our client estimate?
      var delta := update.distance - GetDistanceForUi(tmNow);
      smoothDelta := delta;
      tmSmoothDelta := tmNow;
      speed := update.speed;
      position := update.distance;
      rec.NotePacket(tmNow);
    }
  }
}
