/**
 * Shared vocabulary of the model: optional values, results for the source's
 * thrown errors, JavaScript numbers as they arrive over the wire, and the
 * small numeric helpers (Math.max, Math.min, Math.floor) the source leans on.
 */
module Common {

  datatype Option<T> = None | Some(value: T)

  /** A thrown Error in the source becomes `Failure` carrying its message. */
  datatype Result<T> = Success(value: T) | Failure(error: string)

  /**
   * A JavaScript number read from a parsed message. The model's `real`
   * cannot be NaN or infinite, so values that `isFinite` rejects are
   * represented by the other constructors.
   */
  datatype JsNumber = Finite(v: real) | NaN | PosInfinity | NegInfinity

  predicate IsFinite(n: JsNumber) { n.Finite? }

  /** JavaScript `a <= b` on numbers: false whenever NaN is involved. */
  predicate JsLessOrEqual(a: JsNumber, b: real)
  {
    match a
    case Finite(v) => v <= b
    case NaN => false
    case PosInfinity => false
    case NegInfinity => true
  }

  /** JavaScript `a > b` on numbers. */
  predicate JsGreater(a: JsNumber, b: real)
  {
    match a
    case Finite(v) => v > b
    case NaN => false
    case PosInfinity => true
    case NegInfinity => false
  }

  /** DEFAULT_HANDICAP_POWER of User.ts: the wattage every handicap is normalised to. */
  const DefaultHandicapPower: real := 300.0

  function Max(a: real, b: real): real { if a >= b then a else b }
  function Min(a: real, b: real): real { if a <= b then a else b }
  function MaxInt(a: int, b: int): int { if a >= b then a else b }

  /** Math.floor on a real, as a real. */
  function Floor(x: real): real { x.Floor as real }

  /** Math.max(lo, Math.min(x, hi)): x pulled into [lo, hi], and left alone when already inside. */
  function Clamp(lo: real, x: real, hi: real): (r: real)
    ensures lo <= hi ==> lo <= r <= hi
    ensures lo <= x <= hi ==> r == x
    ensures hi < lo ==> r == lo
  {
    Max(lo, Min(x, hi))
  }

  /** A millisecond timestamp as seconds, the source's `tm / 1000`. */
  function Seconds(ms: int): real { ms as real / 1000.0 }

  // Arithmetic facts the solver does not find on its own.

  lemma MulNonneg(a: real, b: real)
    requires a >= 0.0 && b >= 0.0
    ensures a * b >= 0.0
  {
  }

  lemma MulPos(a: real, b: real)
    requires a > 0.0 && b > 0.0
    ensures a * b > 0.0
  {
  }

  lemma SignOfFactor(a: real, b: real)
    requires a * b >= 0.0 && b > 0.0
    ensures a >= 0.0
  {
  }

  lemma ProductOverFactor(n: real, c: real)
    requires n != 0.0
    ensures (n * c) / n == c
  {
  }

  /** A part over a positive whole it does not exceed is a fraction in [0, 1]. */
  lemma FractionInUnit(offset: real, span: real)
    requires 0.0 <= offset <= span && span > 0.0
    ensures 0.0 <= offset / span <= 1.0
  {
    var q := offset / span;
    assert q * span == offset;
    assert (1.0 - q) * span == span - offset;
    SignOfFactor(q, span);
    SignOfFactor(1.0 - q, span);
  }

  /** A convex combination of two values in [lo, hi] stays in [lo, hi]. */
  lemma InterpolationBetween(pct: real, left: real, right: real, lo: real, hi: real)
    requires 0.0 <= pct <= 1.0
    requires lo <= left <= hi && lo <= right <= hi
    ensures lo <= pct * right + (1.0 - pct) * left <= hi
  {
    MulNonneg(pct, right - lo);
    MulNonneg(1.0 - pct, left - lo);
    assert pct * right + (1.0 - pct) * left - lo == pct * (right - lo) + (1.0 - pct) * (left - lo);
    MulNonneg(pct, hi - right);
    MulNonneg(1.0 - pct, hi - left);
    assert hi - (pct * right + (1.0 - pct) * left) == pct * (hi - right) + (1.0 - pct) * (hi - left);
  }

  lemma DivOfBound(a: real, b: real, c: real)
    requires a <= b * c && c > 0.0
    ensures a / c <= b
  {
    var q := a / c;
    assert q * c == a;
    assert (q - b) * c == q * c - b * c;
    if q > b {
      MulPos(q - b, c);
      assert false;
    }
  }

  lemma DivAtLeast(a: real, b: real, c: real)
    requires b * c <= a && c > 0.0
    ensures a / c >= b
  {
    var q := a / c;
    assert q * c == a;
    assert (b - q) * c == b * c - q * c;
    if q < b {
      MulPos(b - q, c);
      assert false;
    }
  }
}
