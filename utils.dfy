/**
 * Utils.ts: the two assertion helpers and the two display formatters.
 *
 * `assert2` only logs, so it has no observable effect here; every call site
 * of it elsewhere in the model is a precondition or a proved `assert`.
 * The formatters are modelled up to the choice of unit and the numeric
 * parts they print; `toFixed` rounding and string building are not modelled.
 */
module Utils {
  import opened Common

  /** testAssert: throws Error(reason) exactly when the condition is falsy. */
  function TestAssert(f: bool, reason: string): (r: Result<()>)
    ensures r.Failure? <==> !f
    ensures r.Failure? ==> r.error == reason
  {
    if f then Success(()) else Failure(reason)
  }

  /** The numeric parts formatSecondsHms prints, one shape per branch. */
  datatype Hms =
    | SecondsOnly(s: real)
    | MinutesSeconds(m: int, s: real)
    | HoursMinutesSeconds(h: int, m: int, s: real)

  /** The seconds a decomposition stands for. */
  function HmsTotal(x: Hms): real
  {
    match x
    case SecondsOnly(s) => s
    case MinutesSeconds(m, s) => m as real * 60.0 + s
    case HoursMinutesSeconds(h, m, s) => h as real * 3600.0 + m as real * 60.0 + s
  }

  /**
   * formatSecondsHms: under a minute only seconds, under an hour minutes and
   * the remainder (JavaScript `%`, equal to the floor remainder for the
   * non-negative values of that branch), otherwise hours, minutes and seconds.
   */
  function FormatSecondsHms(seconds: real): (r: Hms)
    ensures HmsTotal(r) == seconds
    ensures seconds < 60.0 <==> r.SecondsOnly?
    ensures r.MinutesSeconds? <==> 60.0 <= seconds < 3600.0
    ensures r.MinutesSeconds? ==> 1 <= r.m < 60 && 0.0 <= r.s < 60.0
    ensures r.HoursMinutesSeconds? ==> 1 <= r.h && 0 <= r.m < 60 && 0.0 <= r.s < 60.0
  {
    if seconds < 60.0 then
      SecondsOnly(seconds)
    else if seconds < 3600.0 then
      var m := (seconds / 60.0).Floor;
      MinutesSeconds(m, seconds - m as real * 60.0)
    else
      var h := (seconds / 3600.0).Floor;
      var rest := seconds - h as real * 3600.0;
      var m := (rest / 60.0).Floor;
      HoursMinutesSeconds(h, m, rest - m as real * 60.0)
  }

  /** The unit and number of decimals formatDisplayDistance prints. */
  datatype DisplayDistance =
    | Metres(value: real)
    | Kilometres(value: real, decimals: nat)

  /**
   * formatDisplayDistance: metres below 500 m, then kilometres with two
   * decimals below 10 km, one decimal below 100 km, and none beyond.
   */
  function FormatDisplayDistance(meters: real): (r: DisplayDistance)
    ensures r.Metres? <==> meters < 500.0
    ensures r.Metres? ==> r.value == meters
    ensures r.Kilometres? ==> r.value * 1000.0 == meters
    ensures r.Kilometres? ==> r.decimals == (if meters < 10000.0 then 2 else if meters < 100000.0 then 1 else 0)
  {
    if meters < 500.0 then Metres(meters)
    else if meters < 10000.0 then Kilometres(meters / 1000.0, 2)
    else if meters < 100000.0 then Kilometres(meters / 1000.0, 1)
    else Kilometres(meters / 1000.0, 0)
  }

  /** Printed precision never grows with distance. */
  lemma DisplayPrecisionMonotone(a: real, b: real)
    requires 500.0 <= a <= b
    ensures FormatDisplayDistance(a).decimals >= FormatDisplayDistance(b).decimals
  {
  }
}
