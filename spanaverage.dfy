/**
 * SpanAverage.ts: a time-weighted average of power over a sliding window of
 * `secondsSpan` seconds. Each recorded sample carries the seconds since the
 * anchor timestamp `tmLast`; note that a recorded add does not move the
 * anchor, only the first add and an add after a gap of more than 2 s do.
 */
module SpanAverages {
  import opened Common

  datatype SpanSample = SpanSample(tm: int, dt: real, power: real)

  /** Total weight (seconds) of a run of samples. */
  function SumDt(s: seq<SpanSample>): real
  {
    if s == [] then 0.0 else SumDt(s[..|s| - 1]) + s[|s| - 1].dt
  }

  /** The work (watt-seconds) a sample stands for. */
  function Work(s: SpanSample): real
  {
    s.dt * s.power
  }

  /** Total work of a run of samples. */
  function SumWork(s: seq<SpanSample>): real
  {
    if s == [] then 0.0 else SumWork(s[..|s| - 1]) + Work(s[|s| - 1])
  }

  /** powerSum after evicting the samples of `s` in order, flooring at zero after each. */
  function FlooredPowerSum(p: real, s: seq<SpanSample>): real
  {
    if s == [] then p else Max(0.0, FlooredPowerSum(p, s[..|s| - 1]) - Work(s[|s| - 1]))
  }

  /** A sample lies further back than the span from `tmNow`. */
  predicate Stale(s: SpanSample, tmNow: int, secondsSpan: real)
  {
    (tmNow - s.tm) as real / 1000.0 > secondsSpan
  }

  /** Where eviction stops: the first sample at or after i that is not stale. */
  function StaleUpTo(s: seq<SpanSample>, tmNow: int, secondsSpan: real, i: nat): (k: nat)
    requires i <= |s|
    decreases |s| - i
    ensures i <= k <= |s|
    ensures forall j :: i <= j < k ==> Stale(s[j], tmNow, secondsSpan)
    ensures k < |s| ==> !Stale(s[k], tmNow, secondsSpan)
  {
    if i < |s| && Stale(s[i], tmNow, secondsSpan) then StaleUpTo(s, tmNow, secondsSpan, i + 1) else i
  }

  /** Number of leading samples that eviction removes. */
  function CountStale(s: seq<SpanSample>, tmNow: int, secondsSpan: real): nat
  {
    StaleUpTo(s, tmNow, secondsSpan, 0)
  }

  predicate SortedByTime(s: seq<SpanSample>)
  {
    forall i, j :: 0 <= i < j < |s| ==> s[i].tm <= s[j].tm
  }

  predicate NonNegative(s: seq<SpanSample>)
  {
    forall i :: 0 <= i < |s| ==> s[i].dt >= 0.0 && s[i].power >= 0.0
  }

  /** The fields of a SpanAverage, as a value. */
  datatype SpanState = SpanState(
    samples: seq<SpanSample>, dtSum: real, powerSum: real, tmLast: int, secondsSpan: real)

  /** What reset (and the constructor) leave behind. */
  function Cleared(secondsSpan: real): SpanState
  {
    SpanState([], 0.0, 0.0, 0, secondsSpan)
  }

  /** isReady: the retained samples cover at least 95% of the span. */
  predicate Ready(st: SpanState)
  {
    if |st.samples| <= 0 then false
    else
      var oldest := st.samples[0];
      var newest := st.samples[|st.samples| - 1];
      (newest.tm - oldest.tm) as real / 1000.0 >= st.secondsSpan * 0.95
  }

  /**
   * getAverage: 0 until ready, then work over weight. The source divides by
   * whatever dtSum is; the model needs it non-zero when ready, which
   * DtConsistent guarantees (see ReadyHasWeight).
   */
  function Average(st: SpanState): (r: real)
    requires Ready(st) ==> st.dtSum != 0.0
    ensures !Ready(st) ==> r == 0.0
    ensures Ready(st) ==> r * st.dtSum == st.powerSum
  {
    if !Ready(st) then 0.0 else st.powerSum / st.dtSum
  }

  /** The weight a recorded add gives its sample: seconds since the anchor. */
  function AddDt(st: SpanState, tmNow: int): real
  {
    (tmNow - st.tmLast) as real / 1000.0
  }

  /** An add that records a sample rather than only moving the anchor. */
  predicate Records(st: SpanState, tmNow: int)
  {
    st.tmLast != 0 && AddDt(st, tmNow) <= 2.0
  }

  /**
   * add: the first call and any call more than 2 s after the anchor only
   * move the anchor. Otherwise the sample is appended with its weight since
   * the anchor, the sums grow, and the samples older than the span are
   * evicted from the front, flooring powerSum at zero after each.
   */
  function AfterAdd(st: SpanState, tmNow: int, power: real): SpanState
  {
    if !Records(st, tmNow) then
      st.(tmLast := tmNow)
    else
      var dt := AddDt(st, tmNow);
      var sample := SpanSample(tmNow, dt, power);
      var all := st.samples + [sample];
      var k := CountStale(all, tmNow, st.secondsSpan);
      st.(samples := all[k..],
          dtSum := st.dtSum + dt - SumDt(all[..k]),
          powerSum := FlooredPowerSum(st.powerSum + Work(sample), all[..k]))
  }

  /** dtSum is the weight of the retained samples, each of positive weight. */
  predicate DtConsistent(st: SpanState)
  {
    st.dtSum == SumDt(st.samples) && forall i :: 0 <= i < |st.samples| ==> st.samples[i].dt > 0.0
  }

  /** powerSum is the work of the retained samples, all non-negative. */
  predicate WorkConsistent(st: SpanState)
  {
    st.powerSum == SumWork(st.samples) && NonNegative(st.samples)
  }

  class SpanAverage {
    var samples: seq<SpanSample>
    var dtSum: real
    var powerSum: real
    var tmLast: int
    var secondsSpan: real

    function State(): SpanState
      reads this
    {
      SpanState(samples, dtSum, powerSum, tmLast, secondsSpan)
    }

    /** A negative span would let eviction run past the newest sample. */
    predicate Valid()
      reads this
    {
      secondsSpan >= 0.0
    }

    constructor(secondsSpan: real)
      requires secondsSpan >= 0.0
      ensures Valid() && State() == Cleared(secondsSpan)
    {
      this.samples := [];
      this.dtSum := 0.0;
      this.powerSum := 0.0;
      this.tmLast := 0;
      this.secondsSpan := secondsSpan;
    }

    method Reset(secondsSpan: real)
      requires secondsSpan >= 0.0
      modifies this
      ensures Valid() && State() == Cleared(secondsSpan)
    {
      this.samples := [];
      this.dtSum := 0.0;
      this.powerSum := 0.0;
      this.tmLast := 0;
      this.secondsSpan := secondsSpan;
    }

    function IsReady(): bool
      reads this
    {
      Ready(State())
    }

    function GetAverage(): real
      reads this
      requires IsReady() ==> dtSum != 0.0
    {
      Average(State())
    }

    method Add(tmNow: int, power: real)
      requires Valid()
      modifies this
      ensures Valid()
      ensures State() == AfterAdd(old(State()), tmNow, power)
    {
      ghost var st := State();
      if tmLast == 0 {
        tmLast := tmNow;
        assert State() == st.(tmLast := tmNow);
        return;
      }
      var dt := (tmNow - tmLast) as real / 1000.0;
      if dt > 2.0 {
        // err what
        tmLast := tmNow;
        assert State() == st.(tmLast := tmNow);
        return;
      }
      assert dt == AddDt(st, tmNow) && Records(st, tmNow);
      var sample := SpanSample(tmNow, dt, power);
      dtSum := dtSum + dt;
      powerSum := powerSum + dt * power;
      samples := samples + [sample];
      assert samples == st.samples + [sample] && powerSum == st.powerSum + Work(sample);
      Evict(tmNow);
    }

    /**
     * The eviction loop of add: drop stale samples from the front, taking
     * their weight and work off the sums, then slice. The newest sample is
     * never stale, so the loop always ends at its break.
     */
    method Evict(tmNow: int)
      requires |samples| > 0 && !Stale(samples[|samples| - 1], tmNow, secondsSpan)
      modifies this
      ensures var k := CountStale(old(samples), tmNow, secondsSpan);
        && samples == old(samples)[k..]
        && dtSum == old(dtSum) - SumDt(old(samples)[..k])
        && powerSum == FlooredPowerSum(old(powerSum), old(samples)[..k])
        && tmLast == old(tmLast) && secondsSpan == old(secondsSpan)
    {
      ghost var all, dt0, p0 := samples, dtSum, powerSum;
      var ixSlice := 0;
      while |samples| > 0
        invariant samples == all
        invariant secondsSpan == old(secondsSpan) && tmLast == old(tmLast)
        invariant 0 <= ixSlice < |all|
        invariant CountStale(all, tmNow, secondsSpan) == StaleUpTo(all, tmNow, secondsSpan, ixSlice)
        invariant dtSum == dt0 - SumDt(all[..ixSlice])
        invariant powerSum == FlooredPowerSum(p0, all[..ixSlice])
        decreases |all| - ixSlice
      {
        var sample := samples[ixSlice];
        var leadTimeAgoSeconds := (tmNow - sample.tm) as real / 1000.0;
        if leadTimeAgoSeconds > secondsSpan {
          // this is too far ago, and shouldn't be counted anymore
          assert all[..ixSlice + 1][..ixSlice] == all[..ixSlice];
          ixSlice := ixSlice + 1;
          dtSum := dtSum - sample.dt;
          powerSum := Max(0.0, powerSum - sample.power * sample.dt);
        } else {
          break;
        }
      }
      samples := samples[ixSlice..];
    }
  }

  /** Eviction never removes the sample just added, so a recorded add leaves at least one sample. */
  lemma {:induction false} AddKeepsNewest(st: SpanState, tmNow: int, power: real)
    requires st.secondsSpan >= 0.0 && Records(st, tmNow)
    ensures var after := AfterAdd(st, tmNow, power);
      |after.samples| > 0 && after.samples[|after.samples| - 1] == SpanSample(tmNow, AddDt(st, tmNow), power)
  {
    var all := st.samples + [SpanSample(tmNow, AddDt(st, tmNow), power)];
    assert !Stale(all[|all| - 1], tmNow, st.secondsSpan);
  }

  /** With the clock moving forward, dtSum stays the total of positive sample weights. */
  lemma {:induction false} AddKeepsDtConsistent(st: SpanState, tmNow: int, power: real)
    requires DtConsistent(st) && (st.tmLast == 0 || tmNow > st.tmLast)
    ensures DtConsistent(AfterAdd(st, tmNow, power))
  {
    if Records(st, tmNow) {
      var sample := SpanSample(tmNow, AddDt(st, tmNow), power);
      AppendKeepsDt(st.samples, st.dtSum, sample);
      var all := st.samples + [sample];
      EvictKeepsDt(all, st.dtSum + sample.dt, CountStale(all, tmNow, st.secondsSpan));
    }
  }

  /** Appending a sample of positive weight adds its weight to a consistent total. */
  lemma {:induction false} AppendKeepsDt(samples: seq<SpanSample>, dtSum: real, sample: SpanSample)
    requires dtSum == SumDt(samples) && forall i :: 0 <= i < |samples| ==> samples[i].dt > 0.0
    requires sample.dt > 0.0
    ensures var all := samples + [sample];
      dtSum + sample.dt == SumDt(all) && forall i :: 0 <= i < |all| ==> all[i].dt > 0.0
  {
    assert (samples + [sample])[..|samples|] == samples;
  }

  /** Evicting the first k samples takes exactly their weight off a consistent total. */
  lemma {:induction false} EvictKeepsDt(all: seq<SpanSample>, dtSum: real, k: nat)
    requires k <= |all| && dtSum == SumDt(all) && forall i :: 0 <= i < |all| ==> all[i].dt > 0.0
    ensures dtSum - SumDt(all[..k]) == SumDt(all[k..])
    ensures forall i :: 0 <= i < |all[k..]| ==> all[k..][i].dt > 0.0
  {
    assert all[..k] + all[k..] == all;
    SumDtSplit(all[..k], all[k..]);
  }

  /**
   * With non-negative power and a clock that does not go back, powerSum
   * stays the exact work of the retained samples: the floor at zero never
   * bites.
   */
  lemma {:induction false} AddKeepsWorkConsistent(st: SpanState, tmNow: int, power: real)
    requires WorkConsistent(st) && power >= 0.0 && tmNow >= st.tmLast
    ensures WorkConsistent(AfterAdd(st, tmNow, power))
  {
    if Records(st, tmNow) {
      var sample := SpanSample(tmNow, AddDt(st, tmNow), power);
      var all := st.samples + [sample];
      assert NonNegative(all);
      SumWorkSplit(st.samples, [sample]);
      assert SumWork([sample]) == Work(sample);
      EvictKeepsWork(st.powerSum + Work(sample), all, CountStale(all, tmNow, st.secondsSpan));
    }
  }

  /** Evicting a prefix of non-negative samples from their exact work leaves the work of the rest. */
  lemma {:induction false} EvictKeepsWork(p: real, all: seq<SpanSample>, k: nat)
    requires NonNegative(all) && p == SumWork(all) && k <= |all|
    ensures FlooredPowerSum(p, all[..k]) == SumWork(all[k..]) && NonNegative(all[k..])
  {
    assert all[..k] + all[k..] == all;
    SumWorkSplit(all[..k], all[k..]);
    assert NonNegative(all[k..]);
    assert NonNegative(all[..k]);
    NonNegativeWork(all[k..]);
    FloorInactive(p, all[..k]);
  }

  /**
   * With samples in time order and no sample from the future, a recorded
   * add keeps them in order and keeps none older than the span.
   */
  lemma {:induction false} AddKeepsWindow(st: SpanState, tmNow: int, power: real)
    requires Records(st, tmNow) && SortedByTime(st.samples)
    requires forall i :: 0 <= i < |st.samples| ==> st.samples[i].tm <= tmNow
    ensures var after := AfterAdd(st, tmNow, power);
      SortedByTime(after.samples)
      && forall i :: 0 <= i < |after.samples| ==> !Stale(after.samples[i], tmNow, st.secondsSpan)
  {
    var all := st.samples + [SpanSample(tmNow, AddDt(st, tmNow), power)];
    assert SortedByTime(all);
    RetainedWithinSpan(all, tmNow, st.secondsSpan);
  }

  /** A ready, weight-consistent state has positive weight, so its average is defined. */
  lemma ReadyHasWeight(st: SpanState)
    requires DtConsistent(st) && Ready(st)
    ensures st.dtSum > 0.0
  {
    DtSumPositive(st.samples);
  }

  lemma {:induction false} SumDtSplit(a: seq<SpanSample>, b: seq<SpanSample>)
    decreases |b|
    ensures SumDt(a + b) == SumDt(a) + SumDt(b)
  {
    if b != [] {
      assert (a + b)[..|a + b| - 1] == a + b[..|b| - 1];
      SumDtSplit(a, b[..|b| - 1]);
    } else {
      assert a + b == a;
    }
  }

  lemma {:induction false} SumWorkSplit(a: seq<SpanSample>, b: seq<SpanSample>)
    decreases |b|
    ensures SumWork(a + b) == SumWork(a) + SumWork(b)
  {
    if b != [] {
      assert (a + b)[..|a + b| - 1] == a + b[..|b| - 1];
      SumWorkSplit(a, b[..|b| - 1]);
    } else {
      assert a + b == a;
    }
  }

  lemma {:induction false} NonNegativeWork(s: seq<SpanSample>)
    requires NonNegative(s)
    ensures SumWork(s) >= 0.0
  {
    if s != [] {
      NonNegativeWork(s[..|s| - 1]);
      MulNonneg(s[|s| - 1].dt, s[|s| - 1].power);
    }
  }

  /**
   * powerSum is never negative: evicting floors it at zero, and when
   * nothing is evicted it only grows by the new sample's work.
   */
  lemma {:induction false} AddKeepsPowerSumNonNegative(st: SpanState, tmNow: int, power: real)
    requires st.powerSum >= 0.0 && power >= 0.0 && tmNow >= st.tmLast
    ensures AfterAdd(st, tmNow, power).powerSum >= 0.0
  {
    if Records(st, tmNow) {
      var sample := SpanSample(tmNow, AddDt(st, tmNow), power);
      MulNonneg(sample.dt, power);
      var all := st.samples + [sample];
      FlooredNonNegative(st.powerSum + Work(sample), all[..CountStale(all, tmNow, st.secondsSpan)]);
    }
  }

  lemma {:induction false} FlooredNonNegative(p: real, s: seq<SpanSample>)
    requires p >= 0.0
    ensures FlooredPowerSum(p, s) >= 0.0
  {
  }

  /** Positive weights give a positive total weight. */
  lemma {:induction false} DtSumPositive(s: seq<SpanSample>)
    requires |s| > 0 && forall i :: 0 <= i < |s| ==> s[i].dt > 0.0
    ensures SumDt(s) > 0.0
  {
    if |s| > 1 {
      DtSumPositive(s[..|s| - 1]);
    }
  }

  /**
   * The floor at zero never bites while there is enough work left: evicting
   * non-negative samples from a powerSum that covers them subtracts exactly
   * their work.
   */
  lemma {:induction false} FloorInactive(p: real, s: seq<SpanSample>)
    requires NonNegative(s) && p >= SumWork(s)
    ensures FlooredPowerSum(p, s) == p - SumWork(s)
  {
    if s != [] {
      var init := s[..|s| - 1];
      assert NonNegative(init);
      MulNonneg(s[|s| - 1].dt, s[|s| - 1].power);
      FloorInactive(p, init);
    }
  }

  /** Work of a constant-power run is that power times its weight. */
  lemma {:induction false} ConstantWork(s: seq<SpanSample>, c: real)
    requires forall i :: 0 <= i < |s| ==> s[i].power == c
    ensures SumWork(s) == c * SumDt(s)
  {
    if s != [] {
      ConstantWork(s[..|s| - 1], c);
    }
  }

  /** When only the front was stale and the samples are in time order, everything kept is inside the span. */
  lemma {:induction false} RetainedWithinSpan(s: seq<SpanSample>, tmNow: int, secondsSpan: real)
    requires SortedByTime(s) && |s| > 0 && s[|s| - 1].tm <= tmNow
    ensures var k := CountStale(s, tmNow, secondsSpan);
      SortedByTime(s[k..]) && forall i :: k <= i < |s| ==> !Stale(s[i], tmNow, secondsSpan)
  {
    var k := CountStale(s, tmNow, secondsSpan);
    if k < |s| {
      forall i | k <= i < |s| ensures !Stale(s[i], tmNow, secondsSpan) {
        assert s[k].tm <= s[i].tm;
      }
    }
  }

  /**
   * For a stream of constant power whose sums are consistent with its
   * samples, the ready average is exactly that power.
   */
  lemma ConstantStreamAverage(st: SpanState, c: real)
    requires DtConsistent(st) && WorkConsistent(st) && Ready(st)
    requires forall i :: 0 <= i < |st.samples| ==> st.samples[i].power == c
    ensures st.dtSum > 0.0 && Average(st) == c
  {
    DtSumPositive(st.samples);
    ConstantWork(st.samples, c);
  }
}
