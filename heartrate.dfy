/**
 * heart-rate-engine.ts: a controller that nudges a rider's target handicap
 * so that their heart rate approaches a target. Below the target heart rate
 * the handicap rises slowly (the error is clamped to 10 bpm); at or above it
 * the handicap falls, proportionally to the error.
 */
module HeartRateEngines {
  import opened Common
  import opened Riders

  /** The largest heart-rate shortfall (bpm) the controller reacts to. */
  const MaxErrorBpm: real := 10.0

  /** Per-second handicap change per bpm of shortfall, scaled by the gain. */
  const RaiseRate: real := 0.025

  /** Per-second handicap change per bpm of excess, scaled by the gain. */
  const LowerRate: real := 0.065

  /** handicapsPerSecToAdjust for a heart-rate error (target minus current). */
  function AdjustPerSecond(error: real, gain: real): (r: real)
    ensures gain >= 0.0 && error > 0.0 ==> 0.0 <= r <= gain * RaiseRate * MaxErrorBpm
    ensures gain >= 0.0 && error <= 0.0 ==> r <= 0.0
    ensures gain > 0.0 ==> (r > 0.0 <==> error > 0.0)
  {
    if error > 0.0 then
      var clamped := Min(MaxErrorBpm, error);
      var reclamped := Min(MaxErrorBpm, clamped);
      AdjustBounds(gain, reclamped);
      gain * RaiseRate * reclamped
    else
      LowerSign(gain, error);
      gain * LowerRate * error
  }

  lemma AdjustBounds(gain: real, clamped: real)
    requires 0.0 < clamped <= MaxErrorBpm
    ensures gain >= 0.0 ==> 0.0 <= gain * RaiseRate * clamped <= gain * RaiseRate * MaxErrorBpm
    ensures gain > 0.0 ==> gain * RaiseRate * clamped > 0.0
  {
    if gain >= 0.0 {
      MulNonneg(gain * RaiseRate, clamped);
      MulNonneg(gain * RaiseRate, MaxErrorBpm - clamped);
    }
    if gain > 0.0 {
      MulPos(gain * RaiseRate, clamped);
    }
  }

  lemma LowerSign(gain: real, error: real)
    requires error <= 0.0
    ensures gain >= 0.0 ==> gain * LowerRate * error <= 0.0
  {
    if gain >= 0.0 {
      MulNonneg(gain * LowerRate, -error);
    }
  }

  /** The controller is active only with a heart rate and power both above zero. */
  predicate Active(lastBpm: real, lastWatts: real)
  {
    lastBpm > 0.0 && lastWatts > 0.0
  }

  /**
   * The newTargetHandicap tick returns for a present user. Inactive, the
   * target is kept. Below the target heart rate it rises, by at most
   * 0.25 handicaps per second at full gain; at or above it, it never rises.
   */
  function NewTargetHandicap(lastBpm: real, lastWatts: real, dt: real, targetBpm: real,
                             targetHandicap: real, gain: real): (r: real)
    ensures !Active(lastBpm, lastWatts) ==> r == targetHandicap
    ensures Active(lastBpm, lastWatts) && gain >= 0.0 && dt >= 0.0 && targetBpm > lastBpm ==>
              targetHandicap <= r <= targetHandicap + gain * RaiseRate * MaxErrorBpm * dt
    ensures Active(lastBpm, lastWatts) && gain >= 0.0 && dt >= 0.0 && targetBpm <= lastBpm ==>
              r <= targetHandicap
    ensures Active(lastBpm, lastWatts) && gain > 0.0 && dt > 0.0 ==>
              (r > targetHandicap <==> targetBpm > lastBpm)
  {
    if Active(lastBpm, lastWatts) then
      var adjust := AdjustPerSecond(targetBpm - lastBpm, gain);
      ScaledStep(adjust, gain * RaiseRate * MaxErrorBpm, dt);
      targetHandicap + adjust * dt
    else
      targetHandicap
  }

  lemma ScaledStep(adjust: real, cap: real, dt: real)
    ensures dt >= 0.0 && 0.0 <= adjust <= cap ==> 0.0 <= adjust * dt <= cap * dt
    ensures dt >= 0.0 && adjust <= 0.0 ==> adjust * dt <= 0.0
    ensures dt > 0.0 ==> (adjust * dt > 0.0 <==> adjust > 0.0)
  {
    if dt >= 0.0 && 0.0 <= adjust <= cap {
      MulNonneg(adjust, dt);
      MulNonneg(cap - adjust, dt);
    }
    if dt >= 0.0 && adjust <= 0.0 {
      MulNonneg(-adjust, dt);
    }
    if dt > 0.0 {
      if adjust > 0.0 {
        MulPos(adjust, dt);
      } else {
        MulNonneg(-adjust, dt);
      }
    }
  }

  /** The per-second change does not grow as the error shrinks. */
  lemma {:induction false} AdjustMonotone(e1: real, e2: real, gain: real)
    requires e1 <= e2 && gain >= 0.0
    ensures AdjustPerSecond(e1, gain) <= AdjustPerSecond(e2, gain)
  {
    if e1 > 0.0 {
      var c1 := Min(MaxErrorBpm, e1);
      var c2 := Min(MaxErrorBpm, e2);
      MulNonneg(gain * RaiseRate, c2 - c1);
    } else if e2 <= 0.0 {
      MulNonneg(gain * LowerRate, e2 - e1);
    }
  }

  /** With the same inputs otherwise, a higher heart rate never gives a higher target handicap. */
  lemma HandicapFallsAsHeartRateRises(bpm1: real, bpm2: real, lastWatts: real, dt: real,
                                      targetBpm: real, targetHandicap: real, gain: real)
    requires 0.0 < bpm1 <= bpm2 && lastWatts > 0.0 && gain >= 0.0 && dt >= 0.0
    ensures NewTargetHandicap(bpm2, lastWatts, dt, targetBpm, targetHandicap, gain)
            <= NewTargetHandicap(bpm1, lastWatts, dt, targetBpm, targetHandicap, gain)
  {
    var a1 := AdjustPerSecond(targetBpm - bpm1, gain);
    var a2 := AdjustPerSecond(targetBpm - bpm2, gain);
    AdjustMonotone(targetBpm - bpm2, targetBpm - bpm1, gain);
    MulNonneg(a1 - a2, dt);
  }

  class HeartRateEngine {
    var lastBpm: real

    constructor(firstBpm: real)
      ensures lastBpm == firstBpm
    {
      lastBpm := firstBpm;
    }

    /**
     * tick: with no user the result is 0 and nothing changes; with a user,
     * lastBpm becomes the user's current heart rate and the result is
     * NewTargetHandicap of their heart rate and last power.
     */
    method Tick(user: User?, tmNow: int, dt: real, targetBpm: real, targetHandicap: real,
                gainFactorZeroToOne: real) returns (newTargetHandicap: real)
      modifies this
      ensures user == null ==> newTargetHandicap == 0.0 && lastBpm == old(lastBpm)
      ensures user != null ==>
                && lastBpm == user.rec.GetLastHrm(tmNow)
                && newTargetHandicap == NewTargetHandicap(user.rec.GetLastHrm(tmNow), user.rec.lastPower,
                                                          dt, targetBpm, targetHandicap, gainFactorZeroToOne)
    {
      if user != null {
        var bpm := user.rec.GetLastHrm(tmNow);
        var lastWatts := user.rec.lastPower;
        lastBpm := bpm;
        var gainFactor := gainFactorZeroToOne;
        if bpm > 0.0 && lastWatts > 0.0 {
          var error := targetBpm - bpm;
          var handicapsPerSecToAdjust := 0.0;
          if error > 0.0 {
            error := Min(MaxErrorBpm, error);
            handicapsPerSecToAdjust := gainFactor * RaiseRate * Min(MaxErrorBpm, error);
          } else {
            handicapsPerSecToAdjust := gainFactor * LowerRate * error;
          }
          newTargetHandicap := targetHandicap + handicapsPerSecToAdjust * dt;
        } else {
          newTargetHandicap := targetHandicap;
        }
      } else {
        newTargetHandicap := 0.0;
      }
    }
  }
}
