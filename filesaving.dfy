/**
 * FileSaving.ts: a workout recorder that samples a rider at most once a
 * second, and the PWX export of a recorded workout. Only the sample
 * selection and the summary numbers of the export are modelled; the XML
 * text and its number formatting are not.
 */
module FileSaving {
  import opened Common
  import opened Riders

  /** What the recorder stores each time it samples the rider. */
  datatype WorkoutSample = WorkoutSample(power: real, tm: int, distance: real, speedMetersPerSec: real, hrm: real)

  /** The shortest time between two recorded samples, in ms. */
  const SampleIntervalMs: int := 1000

  // ---------------------------------------------------------------------
  // The sample's power field

  /** The value of reading a property in JavaScript: undefined or a number. */
  datatype PropertyValue = Undefined | Number(value: real)

  /**
   * The power field as the WorkoutSample constructor writes it: it reads
   * the property `power` of the rider's last power, and a number has no
   * such property.
   */
  function SamplePowerAsWritten(lastPower: real): (p: PropertyValue)
    ensures p.Undefined?
  {
    Undefined
  }

  /** What `toFixed(0)` of the sample's power yields in the export; None is the TypeError thrown on undefined. */
  function PowerCell(p: PropertyValue): (r: Option<real>)
    ensures r.Some? <==> p.Number?
    ensures r.Some? ==> r.value == p.value
  {
    match p
    case Undefined => None
    case Number(v) => Some(v)
  }

  /** As written, no rider power ever reaches a sample, and exporting any written sample throws. */
  lemma SamplePowerLost(lastPower: real)
    ensures SamplePowerAsWritten(lastPower) != Number(lastPower)
    ensures PowerCell(SamplePowerAsWritten(lastPower)).None?
  {
  }

  /** A rider riding at 200 W is recorded without power. */
  lemma SamplePowerCounterexample()
    ensures SamplePowerAsWritten(200.0) != Number(200.0)
  {
    SamplePowerLost(200.0);
  }

  /**
   * The sample the recorder takes of a rider at tmNow, with the power field
   * holding the rider's last power as the interface type of the field
   * intends.
   */
  function SampleOf(tmNow: int, st: UserState, rs: RecorderState): (s: WorkoutSample)
    ensures s.tm == tmNow && s.power == rs.lastPower && PowerCell(Number(s.power)) == Some(rs.lastPower)
    ensures s.distance == st.position && s.speedMetersPerSec == st.speed
    ensures s.hrm == LastHrm(rs, tmNow)
  {
    WorkoutSample(rs.lastPower, tmNow, st.position, st.speed, LastHrm(rs, tmNow))
  }

  // ---------------------------------------------------------------------
  // The recorder

  /** Consecutive samples lie at least a sample interval apart. */
  predicate SampledApart(s: seq<WorkoutSample>)
  {
    forall i :: 0 < i < |s| ==> s[i - 1].tm + SampleIntervalMs <= s[i].tm
  }

  /** In a spaced recording, samples k apart lie at least k intervals apart. */
  lemma {:induction false} SpacedApart(s: seq<WorkoutSample>, p: nat, q: nat)
    requires SampledApart(s) && p <= q < |s|
    ensures s[q].tm - s[p].tm >= SampleIntervalMs * (q - p)
    decreases q - p
  {
    if p < q {
      SpacedApart(s, p, q - 1);
      assert s[q - 1].tm + SampleIntervalMs <= s[q].tm;
    }
  }

  class WorkoutFileSaver {
    const user: User
    var tmLastSample: int
    var samples: seq<WorkoutSample>

    /** The recording is spaced, and its newest sample was taken at tmLastSample. */
    predicate Valid()
      reads this
    {
      SampledApart(samples) && (|samples| > 0 ==> samples[|samples| - 1].tm == tmLastSample)
    }

    /**
     * The constructor ticks once against a last sample time of 0, so it
     * records a first sample exactly when tmNow is at least one interval,
     * and then takes tmNow as the last sample time either way.
     */
    constructor(myUser: User, tmNow: int)
      ensures user == myUser && tmLastSample == tmNow && Valid()
      ensures samples == if tmNow >= SampleIntervalMs then [SampleOf(tmNow, myUser.State(), myUser.rec.State())] else []
    {
      user := myUser;
      tmLastSample := 0;
      samples := [];
      new;
      Tick(tmNow);
      tmLastSample := tmNow;
    }

    /** tick: records the rider iff at least one interval has passed since the last sample. */
    method Tick(tmNow: int)
      requires Valid()
      modifies this
      ensures Valid()
      ensures var due := tmNow - old(tmLastSample) >= SampleIntervalMs;
              && samples == (if due then old(samples) + [SampleOf(tmNow, user.State(), user.rec.State())] else old(samples))
              && tmLastSample == (if due then tmNow else old(tmLastSample))
    {
      var dtSince := tmNow - tmLastSample;
      if dtSince >= SampleIntervalMs {
        samples := samples + [SampleOf(tmNow, user.State(), user.rec.State())];
        tmLastSample := tmNow;
      }
    }

    /** getWorkout: the recording, whose samples lie at least one interval apart. */
    function GetWorkout(): (r: seq<WorkoutSample>)
      requires Valid()
      reads this
      ensures SampledApart(r) && |r| == |samples|
      ensures |r| > 0 ==> r[|r| - 1].tm == tmLastSample
    {
      samples
    }
  }

  // ---------------------------------------------------------------------
  // The PWX export

  /** One `<sample>` of the export; `hr` is absent when the heart rate is not positive. */
  datatype PwxSample = PwxSample(timeOffsetSeconds: real, hr: Option<real>, spd: real, pwr: real, dist: real)

  /** The summary and the samples of a PWX file. */
  datatype PwxWorkout = PwxWorkout(durationSeconds: int, lengthMeters: real, samples: seq<PwxSample>)

  /** The `<sample>` written for a recorded sample, timed from the first sample. */
  function PwxSampleOf(sample: WorkoutSample, tmFirst: int): (p: PwxSample)
    ensures p.hr.Some? <==> sample.hrm > 0.0
    ensures p.hr.Some? ==> p.hr.value == sample.hrm
    ensures p.dist == sample.distance && p.pwr == sample.power && p.spd == sample.speedMetersPerSec
    ensures p.timeOffsetSeconds * 1000.0 == (sample.tm - tmFirst) as real
  {
    PwxSample((sample.tm - tmFirst) as real / 1000.0,
              if sample.hrm > 0.0 then Some(sample.hrm) else None,
              sample.speedMetersPerSec, sample.power, sample.distance)
  }

  /** The greatest of d and the distances of s. */
  function RunMax(s: seq<WorkoutSample>, d: real): (m: real)
    ensures m >= d && forall j :: 0 <= j < |s| ==> s[j].distance <= m
    ensures m == d || exists j :: 0 <= j < |s| && m == s[j].distance
  {
    if |s| == 0 then d else Max(RunMax(s[..|s| - 1], d), s[|s| - 1].distance)
  }

  /** Sample i is at least d and at least as far as every sample before it. */
  predicate Leads(s: seq<WorkoutSample>, i: nat, d: real)
    requires i < |s|
  {
    s[i].distance >= d && forall j :: 0 <= j < i ==> s[i].distance >= s[j].distance
  }

  /** A distance reaches the running maximum exactly when it leads. */
  lemma {:induction false} LeadsIff(s: seq<WorkoutSample>, i: nat, d: real)
    requires i < |s|
    ensures Leads(s, i, d) <==> s[i].distance >= RunMax(s[..i], d)
  {
    var m := RunMax(s[..i], d);
    if Leads(s, i, d) && m != d {
      var j :| 0 <= j < i && m == s[..i][j].distance;
      assert s[..i][j] == s[j];
    }
    if s[i].distance >= m {
      assert forall j :: 0 <= j < i ==> s[..i][j] == s[j];
    }
  }

  /**
   * The samples the export writes: each recorded sample that is at least
   * `d` and at least as far as every earlier one, in order.
   */
  function Written(s: seq<WorkoutSample>, d: real, tmFirst: int): seq<PwxSample>
  {
    if |s| == 0 then []
    else Written(s[..|s| - 1], d, tmFirst) + (if Leads(s, |s| - 1, d) then [PwxSampleOf(s[|s| - 1], tmFirst)] else [])
  }

  lemma {:induction false} WrittenStep(s: seq<WorkoutSample>, i: nat, d: real, tmFirst: int)
    requires i < |s|
    ensures Written(s[..i + 1], d, tmFirst)
            == Written(s[..i], d, tmFirst) + (if s[i].distance >= RunMax(s[..i], d) then [PwxSampleOf(s[i], tmFirst)] else [])
    ensures RunMax(s[..i + 1], d) == Max(RunMax(s[..i], d), s[i].distance)
  {
    var t := s[..i + 1];
    assert t[..i] == s[..i];
    LeadsIff(t, i, d);
  }

  /**
   * samplesToPWX: with no samples the source throws reading the first one
   * (None). Otherwise the duration is the whole seconds between the first
   * and last sample, the length the distance between them, and the samples
   * written are those Written picks against the first sample's distance.
   */
  method SamplesToPwx(samples: seq<WorkoutSample>) returns (r: Option<PwxWorkout>)
    ensures r.None? <==> |samples| == 0
    ensures r.Some? ==>
              var first := samples[0];
              var last := samples[|samples| - 1];
              && r.value.durationSeconds * 1000 <= last.tm - first.tm < r.value.durationSeconds * 1000 + 1000
              && first.distance + r.value.lengthMeters == last.distance
              && r.value.samples == Written(samples, first.distance, first.tm)
  {
    if |samples| == 0 {
      return None;
    }
    var firstSample := samples[0];
    var durationSeconds := (samples[|samples| - 1].tm - samples[0].tm) / 1000;
    var lengthMeters := samples[|samples| - 1].distance - samples[0].distance;
    var lastSample := firstSample;
    var lines: seq<PwxSample> := [];
    var i := 0;
    while i < |samples|
      invariant i <= |samples|
      invariant lastSample.distance == RunMax(samples[..i], firstSample.distance)
      invariant lines == Written(samples[..i], firstSample.distance, firstSample.tm)
    {
      var sample := samples[i];
      WrittenStep(samples, i, firstSample.distance, firstSample.tm);
      if sample.distance >= lastSample.distance {
        lines := lines + [PwxSampleOf(sample, firstSample.tm)];
        lastSample := sample;
      }
      i := i + 1;
    }
    assert samples[..|samples|] == samples;
    r := Some(PwxWorkout(durationSeconds, lengthMeters, lines));
  }

  /** Every written distance is at least d, at most the running maximum, and they never decrease. */
  lemma {:induction false} WrittenOrdered(s: seq<WorkoutSample>, d: real, tmFirst: int)
    ensures forall k :: 0 <= k < |Written(s, d, tmFirst)| ==> d <= Written(s, d, tmFirst)[k].dist <= RunMax(s, d)
    ensures forall p, q :: 0 <= p < q < |Written(s, d, tmFirst)| ==>
              Written(s, d, tmFirst)[p].dist <= Written(s, d, tmFirst)[q].dist
  {
    if |s| > 0 {
      var init := s[..|s| - 1];
      WrittenOrdered(init, d, tmFirst);
      LeadsIff(s, |s| - 1, d);
      var wi := Written(init, d, tmFirst);
      assert RunMax(init, d) <= RunMax(s, d);
      if Leads(s, |s| - 1, d) {
        var e := PwxSampleOf(s[|s| - 1], tmFirst);
        assert Written(s, d, tmFirst) == wi + [e];
      }
    }
  }

  /** The first recorded sample is always written, first. */
  lemma {:induction false} FirstWritten(s: seq<WorkoutSample>, tmFirst: int, n: nat)
    requires 0 < n <= |s|
    ensures var w := Written(s[..n], s[0].distance, tmFirst);
            |w| > 0 && w[0] == PwxSampleOf(s[0], tmFirst)
  {
    var t := s[..n];
    if n == 1 {
      assert Leads(t, 0, s[0].distance);
      assert t[..0] == [];
    } else {
      FirstWritten(s, tmFirst, n - 1);
      assert t[..n - 1] == s[..n - 1];
    }
  }

  /** When the recorded distances never decrease, every sample is written. */
  lemma {:induction false} AllWrittenWhenNondecreasing(s: seq<WorkoutSample>, d: real, tmFirst: int)
    requires forall p, q :: 0 <= p < q < |s| ==> s[p].distance <= s[q].distance
    requires |s| > 0 ==> d <= s[0].distance
    ensures |Written(s, d, tmFirst)| == |s|
  {
    if |s| > 0 {
      var init := s[..|s| - 1];
      AllWrittenWhenNondecreasing(init, d, tmFirst);
      assert Leads(s, |s| - 1, d);
    }
  }

  /** Exported from a recording, the duration is at least one second per interval between samples. */
  lemma {:induction false} RecordedDuration(s: seq<WorkoutSample>)
    requires SampledApart(s) && |s| > 0
    ensures (s[|s| - 1].tm - s[0].tm) / 1000 >= |s| - 1
  {
    SpacedApart(s, 0, |s| - 1);
  }
}
