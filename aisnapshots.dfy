/**
 * ServerAISnapshots.ts: the sequence utilities behind the AI training
 * snapshots. They measure the climbing left on the course and the hill
 * the rider is on, find the rider's group in the field, average the
 * training label and drop the input columns that never change. The
 * TensorFlow training code around them is not part of this model.
 *
 * `bound` of that file is Common.Clamp.
 */
module AiSnapshots {
  import opened Common
  import opened RideMaps

  // ---------------------------------------------------------------------
  // Climbing left on the course

  /** Both climb scans sample the course every hundredth of its length. */
  function StepOf(course: RideMap): real { course.length / 100.0 }

  /** The i-th point of the scan from `start`, reached by adding `step` i times. */
  function Point(start: real, step: real, i: nat): real
  {
    if i == 0 then start else Point(start, step, i - 1) + step
  }

  /** The i-th point lies i steps from the start. */
  lemma {:induction false} PointIs(start: real, step: real, i: nat)
    ensures Point(start, step, i) == start + i as real * step
  {
    if i > 0 {
      PointIs(start, step, i - 1);
    }
  }

  /** The elevation at `meters`, times `dir` (-1 turns descents into climbs). */
  function ElevAt(course: RideMap, dir: real, meters: real): real { dir * course.elevation(meters) }

  /** The elevation, times `dir`, at the i-th sample after `start`. */
  function SampleElev(course: RideMap, dir: real, start: real, i: nat): real
  {
    ElevAt(course, dir, Point(start, StepOf(course), i))
  }

  /** The first `n` sampled elevations from `start`, times `dir`. */
  function Profile(course: RideMap, dir: real, start: real, n: nat): (r: seq<real>)
    ensures |r| == n && forall i :: 0 <= i < n ==> r[i] == SampleElev(course, dir, start, i)
  {
    seq(n, i requires 0 <= i < n => SampleElev(course, dir, start, i))
  }

  /** The least integer at or above x. */
  function Ceil(x: real): int { -((-x).Floor) }

  /** How many of the points start, start + step, start + 2 step, ... lie before `length`. */
  function SampleCount(start: real, length: real, step: real): nat
    requires start < length ==> step > 0.0
  {
    if start < length then
      assert (-((length - start) / step)).Floor < 0 by { DivPositive(length - start, step); }
      Ceil((length - start) / step)
    else 0
  }

  lemma DivPositive(a: real, b: real)
    requires a > 0.0 && b > 0.0
    ensures a / b > 0.0
  {
    var q := a / b;
    assert q * b == a;
    if q <= 0.0 {
      MulNonneg(-q, b);
      assert false;
    }
  }

  /** A point before the count lies before `length`. */
  lemma {:induction false} SampleBefore(start: real, length: real, step: real, i: nat)
    requires start < length ==> step > 0.0
    requires i < SampleCount(start, length, step)
    ensures Point(start, step, i) < length
  {
    PointIs(start, step, i);
    var x := (length - start) / step;
    assert x * step == length - start;
    assert i as real < x;
    assert (x - i as real) * step == length - start - i as real * step;
    MulPos(x - i as real, step);
  }

  /** The point at the count no longer lies before `length`. */
  lemma SampleEnd(start: real, length: real, step: real)
    requires start < length ==> step > 0.0
    ensures Point(start, step, SampleCount(start, length, step)) >= length
  {
    PointIs(start, step, SampleCount(start, length, step));
    if start < length {
      var x := (length - start) / step;
      var n := SampleCount(start, length, step);
      assert x * step == length - start;
      assert n as real >= x;
      assert (n as real - x) * step == start + n as real * step - length;
      MulNonneg(n as real - x, step);
    }
  }

  /** A point before `length` comes before the count. */
  lemma {:induction false} SampleBound(start: real, length: real, step: real, i: nat)
    requires start < length ==> step > 0.0
    requires i <= SampleCount(start, length, step) && Point(start, step, i) < length
    ensures i < SampleCount(start, length, step)
  {
    SampleEnd(start, length, step);
  }

  /** A point at or past `length` comes at or past the count. */
  lemma {:induction false} SampleExact(start: real, length: real, step: real, i: nat)
    requires start < length ==> step > 0.0
    requires i <= SampleCount(start, length, step) && Point(start, step, i) >= length
    ensures i == SampleCount(start, length, step)
  {
    if i < SampleCount(start, length, step) {
      SampleBefore(start, length, step, i);
    }
  }

  /** What one step from `a` up to `b` adds to the climb. */
  function Rise(a: real, b: real): real { if b > a then b - a else 0.0 }

  /** What one step from `a` down to `b` adds to the descent. */
  function Drop(a: real, b: real): real { if b < a then a - b else 0.0 }

  /** The climbing along a profile: the sum of its rising steps. */
  function Climb(es: seq<real>): (r: real)
    ensures r >= 0.0
  {
    if |es| <= 1 then 0.0 else Climb(es[..|es| - 1]) + Rise(es[|es| - 2], es[|es| - 1])
  }

  /** The descending along a profile: the sum of its falling steps. */
  function Descent(es: seq<real>): real
  {
    if |es| <= 1 then 0.0 else Descent(es[..|es| - 1]) + Drop(es[|es| - 2], es[|es| - 1])
  }

  function Negated(es: seq<real>): (r: seq<real>)
    ensures |r| == |es| && forall i :: 0 <= i < |es| ==> r[i] == -es[i]
  {
    seq(|es|, i requires 0 <= i < |es| => -es[i])
  }

  /**
   * getMetersLeftToClimb: the climbing along the samples from the rider's
   * distance to the end of the course, elevations taken times `dir`.
   */
  method MetersLeftToClimb(currentDist: real, course: RideMap, dir: real) returns (climbAmount: real)
    requires currentDist < course.length ==> course.length > 0.0
    ensures climbAmount
      == Climb(Profile(course, dir, currentDist, SampleCount(currentDist, course.length, StepOf(course))))
  {
    var step := StepOf(course);
    var lastElev := ElevAt(course, dir, currentDist);
    climbAmount := 0.0;
    ghost var n := SampleCount(currentDist, course.length, step);
    ghost var i: nat := 0;
    var dist := currentDist;
    while dist < course.length
      invariant i <= n && dist == Point(currentDist, step, i)
      invariant lastElev == SampleElev(course, dir, currentDist, if i == 0 then 0 else i - 1)
      invariant climbAmount == Climb(Profile(course, dir, currentDist, i))
      decreases n - i
    {
      SampleBound(currentDist, course.length, step, i);
      var elev := ElevAt(course, dir, dist);
      ClimbStep(course, dir, currentDist, i);
      if elev > lastElev {
        climbAmount := climbAmount + (elev - lastElev);
      }
      lastElev := elev;
      dist := dist + step;
      i := i + 1;
    }
    SampleExact(currentDist, course.length, step, i);
  }

  /** One more sample adds its rise over the one before; the first adds nothing. */
  lemma {:induction false} ClimbStep(course: RideMap, dir: real, start: real, i: nat)
    ensures Climb(Profile(course, dir, start, i + 1)) == Climb(Profile(course, dir, start, i))
      + (if i == 0 then 0.0 else Rise(SampleElev(course, dir, start, i - 1), SampleElev(course, dir, start, i)))
  {
    var p := Profile(course, dir, start, i + 1);
    assert p[..i] == Profile(course, dir, start, i);
  }


  /** Climbing a profile upside down is descending it. */
  lemma {:induction false} UpsideDownClimb(es: seq<real>)
    ensures Climb(Negated(es)) == Descent(es)
  {
    if |es| > 1 {
      var ns := Negated(es);
      assert ns[..|es| - 1] == Negated(es[..|es| - 1]);
      UpsideDownClimb(es[..|es| - 1]);
    }
  }

  /** The climbing less the descending of a profile is its net change of elevation. */
  lemma {:induction false} ClimbLessDescent(es: seq<real>)
    requires |es| >= 1
    ensures Climb(es) - Descent(es) == es[|es| - 1] - es[0]
  {
    if |es| > 1 {
      ClimbLessDescent(es[..|es| - 1]);
    }
  }

  /**
   * With dir = -1 getMetersLeftToClimb measures the descending left, and
   * the climbing less the descending left is the net change of elevation
   * from the rider to the last sample.
   */
  lemma {:induction false} ClimbAndDescentLeft(course: RideMap, start: real, n: nat)
    requires n >= 1
    ensures Climb(Profile(course, -1.0, start, n)) == Descent(Profile(course, 1.0, start, n))
    ensures Climb(Profile(course, 1.0, start, n)) - Climb(Profile(course, -1.0, start, n))
      == SampleElev(course, 1.0, start, n - 1) - SampleElev(course, 1.0, start, 0)
  {
    var up := Profile(course, 1.0, start, n);
    assert Profile(course, -1.0, start, n) == Negated(up);
    UpsideDownClimb(up);
    ClimbLessDescent(up);
  }

  // ---------------------------------------------------------------------
  // The hill the rider is on

  /** A point at or past the count is at or past `length`: the sample points ascend. */
  lemma {:induction false} SampleIff(start: real, length: real, step: real, i: nat)
    requires step > 0.0
    ensures i < SampleCount(start, length, step) <==> Point(start, step, i) < length
  {
    var n := SampleCount(start, length, step);
    if i < n {
      SampleBefore(start, length, step, i);
    } else {
      SampleEnd(start, length, step);
      PointIs(start, step, i);
      PointIs(start, step, n);
      assert Point(start, step, i) - Point(start, step, n) == (i - n) as real * step;
      MulNonneg((i - n) as real, step);
    }
  }

  /**
   * How many rising steps follow sample j before the elevation stops
   * rising or the samples before the end (n of them) run out.
   */
  function RiseRun(course: RideMap, dir: real, start: real, j: nat, n: nat): (r: nat)
    ensures r > 0 ==> j + r < n
    ensures forall k :: j <= k < j + r ==> SampleElev(course, dir, start, k) < SampleElev(course, dir, start, k + 1)
    ensures j + r + 1 < n ==> SampleElev(course, dir, start, j + r + 1) <= SampleElev(course, dir, start, j + r)
    decreases n - j
  {
    if j + 1 < n && SampleElev(course, dir, start, j + 1) > SampleElev(course, dir, start, j) then
      1 + RiseRun(course, dir, start, j + 1, n)
    else 0
  }

  /**
   * getMetersLeftToClimbCurrentHill: walking from the rider one step at a
   * time while the elevation (times `dir`) keeps rising, the height gained
   * and the distance covered. The walk stops at the first step that does
   * not rise, so both are never negative.
   */
  method MetersLeftToClimbCurrentHill(currentDist: real, course: RideMap, dir: real) returns (vertToGo: real, horzToGo: real)
    requires currentDist < course.length || currentDist + StepOf(course) < course.length ==> course.length > 0.0
    ensures var h := RiseRun(course, dir, currentDist, 0, SampleCount(currentDist, course.length, StepOf(course)));
      && vertToGo == SampleElev(course, dir, currentDist, h) - SampleElev(course, dir, currentDist, 0)
      && horzToGo == Point(currentDist, StepOf(course), h) - currentDist
    ensures vertToGo >= 0.0 && horzToGo >= 0.0
  {
    var lastElev := ElevAt(course, dir, currentDist);
    var climbAmount := 0.0;
    var step := StepOf(course);
    ghost var n := SampleCount(currentDist, course.length, step);
    ghost var j: nat := 0;
    ghost var h := RiseRun(course, dir, currentDist, 0, n);
    var dist := currentDist + step;
    while dist < course.length
      invariant dist == Point(currentDist, step, j + 1)
      invariant j > 0 ==> course.length > 0.0 && j < n
      invariant lastElev == SampleElev(course, dir, currentDist, j)
      invariant climbAmount == SampleElev(course, dir, currentDist, j) - SampleElev(course, dir, currentDist, 0)
      invariant j + RiseRun(course, dir, currentDist, j, n) == h
      decreases n - j
    {
      SampleIff(currentDist, course.length, step, j + 1);
      var elev := ElevAt(course, dir, dist);
      if elev > lastElev {
        climbAmount := climbAmount + (elev - lastElev);
      } else {
        assert RiseRun(course, dir, currentDist, j, n) == 0;
        break;
      }
      lastElev := elev;
      dist := dist + step;
      j := j + 1;
    }
    if dist >= course.length && n > 0 {
      SampleIff(currentDist, course.length, step, j + 1);
    }
    assert RiseRun(course, dir, currentDist, j, n) == 0;
    assert h == j;
    Covered(currentDist, step, j, h, dist);
    HillWithinClimb(course, dir, currentDist, n);
    horzToGo := dist - step - currentDist;
    vertToGo := climbAmount;
  }

  /** One step short of the (j+1)-th point lies j steps from the start. */
  lemma {:induction false} Covered(start: real, step: real, j: nat, h: nat, dist: real)
    requires dist == Point(start, step, j + 1) && h == j
    ensures dist - step - start == Point(start, step, h) - start
    ensures step >= 0.0 ==> dist - step - start >= 0.0
  {
    if step >= 0.0 {
      PointIs(start, step, h);
      MulNonneg(h as real, step);
    }
  }

  /** The height gained on the current hill is part of the climbing left. */
  lemma {:induction false} HillWithinClimb(course: RideMap, dir: real, start: real, n: nat)
    ensures var h := RiseRun(course, dir, start, 0, n);
      0.0 <= SampleElev(course, dir, start, h) - SampleElev(course, dir, start, 0) <= Climb(Profile(course, dir, start, n))
  {
    var h := RiseRun(course, dir, start, 0, n);
    RisingClimb(course, dir, start, h);
    if h > 0 {
      ClimbOfPrefix(Profile(course, dir, start, n), h + 1);
      assert Profile(course, dir, start, n)[..h + 1] == Profile(course, dir, start, h + 1);
    }
  }

  /** Along a run of rising samples the climbing is the height gained. */
  lemma {:induction false} RisingClimb(course: RideMap, dir: real, start: real, h: nat)
    requires forall k :: 0 <= k < h ==> SampleElev(course, dir, start, k) < SampleElev(course, dir, start, k + 1)
    ensures Climb(Profile(course, dir, start, h + 1)) == SampleElev(course, dir, start, h) - SampleElev(course, dir, start, 0)
  {
    ClimbStep(course, dir, start, h);
    if h > 0 {
      RisingClimb(course, dir, start, h - 1);
    }
  }

  /** A prefix of a profile climbs no more than the whole. */
  lemma {:induction false} ClimbOfPrefix(es: seq<real>, m: nat)
    requires m <= |es|
    ensures Climb(es[..m]) <= Climb(es)
  {
    if m == |es| {
      assert es[..m] == es;
    } else {
      assert es[..|es| - 1][..m] == es[..m];
      ClimbOfPrefix(es[..|es| - 1], m);
    }
  }

  // ---------------------------------------------------------------------
  // The rider's group

  /** Riders closer than this to their neighbour ride in the same group. */
  const GroupGap: real := 10.0

  /** Math.abs. */
  function Abs(x: real): real { if x < 0.0 then -x else x }

  /** The gap between the riders at positions k and k + 1 of the field. */
  function Gap(dists: seq<real>, k: nat): real
    requires k + 1 < |dists|
  {
    Abs(dists[k + 1] - dists[k])
  }

  /** How many neighbours ahead of position i ride with it, each within the gap of the one before. */
  function AheadRun(dists: seq<real>, i: nat): (r: nat)
    requires i < |dists|
    ensures i + r < |dists|
    ensures forall k :: i <= k < i + r ==> Gap(dists, k) < GroupGap
    ensures i + r + 1 < |dists| ==> Gap(dists, i + r) >= GroupGap
    decreases |dists| - i
  {
    if i + 1 < |dists| && Gap(dists, i) < GroupGap then 1 + AheadRun(dists, i + 1) else 0
  }

  /** How many neighbours behind position i ride with it, each within the gap of the one after. */
  function BehindRun(dists: seq<real>, i: nat): (r: nat)
    requires i < |dists|
    ensures r <= i
    ensures forall k :: i - r <= k < i ==> Gap(dists, k) < GroupGap
    ensures r < i ==> Gap(dists, i - r - 1) >= GroupGap
  {
    if i >= 1 && Gap(dists, i - 1) < GroupGap then 1 + BehindRun(dists, i - 1) else 0
  }

  /** The positions lo, lo + 1, ..., hi - 1. */
  function Window(lo: nat, hi: nat): (r: seq<nat>)
    ensures |r| == if lo <= hi then hi - lo else 0
    ensures forall k :: 0 <= k < |r| ==> r[k] == lo + k
    decreases hi - lo
  {
    if lo < hi then [lo] + Window(lo + 1, hi) else []
  }

  /** Every entry is a position of a field of n riders. */
  predicate InField(n: nat, s: seq<nat>)
  {
    forall k :: 0 <= k < |s| ==> s[k] < n
  }

  /** The positions are in order of ascending distance. */
  predicate Ascending(dists: seq<real>, s: seq<nat>)
  {
    InField(|dists|, s) && forall p, q :: 0 <= p < q < |s| ==> dists[s[p]] <= dists[s[q]]
  }

  /** One position put into a list, before the first that is farther along. */
  function InsertByDistance(dists: seq<real>, x: nat, s: seq<nat>): (r: seq<nat>)
    requires x < |dists| && InField(|dists|, s)
    ensures multiset(r) == multiset(s) + multiset{x}
    ensures |r| == |s| + 1 && InField(|dists|, r)
    ensures forall k :: k in r <==> k == x || k in s
  {
    if |s| == 0 then [x]
    else if dists[x] <= dists[s[0]] then [x] + s
    else
      assert s == [s[0]] + s[1..];
      [s[0]] + InsertByDistance(dists, x, s[1..])
  }

  /** Putting a position into an ascending list keeps it ascending. */
  lemma {:induction false} InsertAscending(dists: seq<real>, x: nat, s: seq<nat>)
    requires x < |dists| && Ascending(dists, s)
    ensures Ascending(dists, InsertByDistance(dists, x, s))
  {
    var r := InsertByDistance(dists, x, s);
    if |s| > 0 && dists[x] > dists[s[0]] {
      var rest := InsertByDistance(dists, x, s[1..]);
      InsertAscending(dists, x, s[1..]);
      assert r == [s[0]] + rest;
      forall q | 0 <= q < |rest|
        ensures dists[s[0]] <= dists[rest[q]]
      {
        assert rest[q] in rest;
        if rest[q] != x {
          var p :| 0 <= p < |s[1..]| && s[1..][p] == rest[q];
          assert s[p + 1] == rest[q];
        }
      }
    }
  }

  /** group.sort by ascending distance, modelled as an insertion sort. */
  function SortByDistance(dists: seq<real>, s: seq<nat>): (r: seq<nat>)
    requires InField(|dists|, s)
    ensures multiset(r) == multiset(s) && Ascending(dists, r)
    ensures |r| == |s| && forall k :: k in r <==> k in s
  {
    if |s| == 0 then []
    else
      assert s == s[..|s| - 1] + [s[|s| - 1]];
      var sorted := SortByDistance(dists, s[..|s| - 1]);
      InsertAscending(dists, s[|s| - 1], sorted);
      InsertByDistance(dists, s[|s| - 1], sorted)
  }

  /**
   * getGroup over the distances of the field sorted ascending, riders
   * given by their positions. The group is the unbroken run of riders
   * around ixMe in which each is within GroupGap of the next, sorted by
   * distance; ixYou is how many of it are ahead of the rider, and
   * ridersAheadOfGroup how many riders are beyond it.
   */
  method GetGroup(ixMe: nat, dists: seq<real>) returns (group: seq<nat>, ixYou: nat, ridersAheadOfGroup: int)
    requires ixMe < |dists|
    ensures var a := AheadRun(dists, ixMe); var b := BehindRun(dists, ixMe);
      && ixYou == a
      && |group| == a + 1 + b
      && (forall k :: k in group <==> ixMe - b <= k <= ixMe + a)
      && ridersAheadOfGroup == |dists| - (ixMe + a + 1)
    ensures Ascending(dists, group)
  {
    var pushed, ixAhead;
    pushed, ixAhead, ridersAheadOfGroup := ScanAhead(ixMe, dists);
    ixYou := |pushed|;
    pushed := pushed + [ixMe];
    ghost var front := pushed;
    pushed := ScanBehind(ixMe, dists, pushed);
    GroupMembers(pushed, front, ixMe, ixAhead, |dists|, BehindRun(dists, ixMe));
    group := SortByDistance(dists, pushed);
  }

  /** getGroup's first loop: the riders ahead of ixMe that ride with it, nearest first. */
  method ScanAhead(ixMe: nat, dists: seq<real>) returns (pushed: seq<nat>, ixAhead: nat, ridersAheadOfGroup: int)
    requires ixMe < |dists|
    ensures ixAhead == ixMe + AheadRun(dists, ixMe) + 1 && pushed == Window(ixMe + 1, ixAhead)
    ensures ridersAheadOfGroup == |dists| - ixAhead
  {
    pushed := [];
    var lastDistance := dists[ixMe];
    ridersAheadOfGroup := 0;
    ixAhead := ixMe + 1;
    while ixAhead < |dists|
      invariant ixMe < ixAhead <= |dists|
      invariant pushed == Window(ixMe + 1, ixAhead)
      invariant lastDistance == dists[ixAhead - 1]
      invariant ridersAheadOfGroup == 0
      invariant ixAhead - 1 - ixMe + AheadRun(dists, ixAhead - 1) == AheadRun(dists, ixMe)
    {
      var thisDist := dists[ixAhead];
      var delta := Abs(thisDist - lastDistance);
      if delta < GroupGap {
        WindowGrows(ixMe + 1, ixAhead);
        pushed := pushed + [ixAhead];
        lastDistance := thisDist;
      } else {
        ridersAheadOfGroup := |dists| - ixAhead;
        break;
      }
      ixAhead := ixAhead + 1;
    }
    assert AheadRun(dists, ixAhead - 1) == 0;
  }

  /** getGroup's second loop: the riders behind ixMe that ride with it, nearest first, pushed after `front`. */
  method ScanBehind(ixMe: nat, dists: seq<real>, front: seq<nat>) returns (pushed: seq<nat>)
    requires ixMe < |dists|
    ensures pushed == front + Down(ixMe - 1, BehindRun(dists, ixMe))
  {
    pushed := front;
    ghost var count: nat := 0;
    var lastDistance := dists[ixMe];
    var ixBehind: int := ixMe - 1;
    while ixBehind >= 0
      invariant -1 <= ixBehind < ixMe
      invariant count == ixMe - 1 - ixBehind && pushed == front + Down(ixMe - 1, count)
      invariant lastDistance == dists[ixBehind + 1]
      invariant count + BehindRun(dists, ixBehind + 1) == BehindRun(dists, ixMe)
    {
      var thisDist := dists[ixBehind];
      var delta := Abs(thisDist - lastDistance);
      if delta < GroupGap {
        DownGrows(ixMe - 1, count);
        assert pushed + [ixBehind] == front + (Down(ixMe - 1, count) + [ixBehind]);
        pushed := pushed + [ixBehind];
        count := count + 1;
        lastDistance := thisDist;
      } else {
        break;
      }
      ixBehind := ixBehind - 1;
    }
    assert BehindRun(dists, ixBehind + 1) == 0;
    SameDown(ixMe - 1, count, BehindRun(dists, ixMe));
  }

  lemma {:induction false} SameDown(top: int, count: nat, count': nat)
    requires count == count' && count <= top + 1
    ensures Down(top, count) == Down(top, count')
  {
  }

  /** The positions top, top - 1, ..., top - count + 1. */
  function Down(top: int, count: nat): (r: seq<nat>)
    requires count <= top + 1
    ensures |r| == count && forall k :: 0 <= k < count ==> r[k] == top - k
  {
    if count == 0 then [] else [top as nat] + Down(top - 1, count - 1)
  }

  lemma {:induction false} DownGrows(top: int, count: nat)
    requires count + 1 <= top + 1
    ensures Down(top, count + 1) == Down(top, count) + [top - count]
  {
    if count > 0 {
      DownGrows(top - 1, count - 1);
    }
  }

  /**
   * What getGroup pushes, the riders ahead up to `hi`, the rider and then
   * b riders behind, are the positions of one unbroken window of the field.
   */
  lemma {:induction false} GroupMembers(s: seq<nat>, front: seq<nat>, ixMe: nat, hi: nat, n: nat, b: nat)
    requires b <= ixMe < hi <= n
    requires front == Window(ixMe + 1, hi) + [ixMe] && s == front + Down(ixMe - 1, b)
    ensures |s| == hi - ixMe + b && InField(n, s)
    ensures forall k :: k in s <==> ixMe - b <= k < hi
  {
    var w := Window(ixMe + 1, hi);
    var d := Down(ixMe - 1, b);
    assert forall p :: 0 <= p < |s| ==> s[p] == if p < |w| then ixMe + 1 + p else if p == |w| then ixMe else ixMe - 1 - (p - |w| - 1);
    forall k | ixMe - b <= k < hi
      ensures k in s
    {
      if k > ixMe {
        assert s[k - ixMe - 1] == k;
      } else if k == ixMe {
        assert s[|w|] == k;
      } else {
        assert s[|w| + ixMe - k] == k;
      }
    }
  }

  lemma {:induction false} WindowGrows(lo: nat, hi: nat)
    requires lo <= hi
    ensures Window(lo, hi + 1) == Window(lo, hi) + [hi]
  {
  }

  /** ridersAheadOfGroup as ServerAISnapshots.ts:340 computes it: the field less the breakaway's position less one. */
  function RidersAheadAsWritten(ixMe: nat, dists: seq<real>): (r: int)
    requires ixMe < |dists|
    ensures r >= 0
  {
    var ixAhead := ixMe + AheadRun(dists, ixMe) + 1;
    if ixAhead < |dists| then |dists| - ixAhead - 1 else 0
  }

  /**
   * Whenever a rider has broken away ahead of the group, the count as
   * written is one short of the riders ahead of the group; with a single
   * rider away it is 0, which the training input reads as the group leading.
   */
  lemma {:induction false} RidersAheadUndercounted(ixMe: nat, dists: seq<real>)
    requires ixMe < |dists|
    ensures var ahead := |dists| - (ixMe + AheadRun(dists, ixMe) + 1);
      ahead > 0 ==> RidersAheadAsWritten(ixMe, dists) == ahead - 1
  {
  }

  /** Two riders 100 m apart: one rider is ahead of the group, the count as written says none. */
  lemma RidersAheadCounterexample()
    ensures RidersAheadAsWritten(0, [0.0, 100.0]) == 0
    ensures |[0.0, 100.0]| - (0 + AheadRun([0.0, 100.0], 0) + 1) == 1
  {
    assert Gap([0.0, 100.0], 0) == 100.0;
  }

  // ---------------------------------------------------------------------
  // The training label

  /** The fields of a training snapshot that its label reads. */
  datatype LabelEntry = LabelEntry(distanceInRace: real, powerNextSecond: real)

  /** N of trainingSnapshotToAILabel: the label averages at most this many snapshots. */
  const LabelWindow: nat := 5

  /** Math.min(snaps.length, index + N). */
  function LabelEnd(snaps: seq<LabelEntry>, index: nat): nat
  {
    if |snaps| < index + LabelWindow then |snaps| else index + LabelWindow
  }

  /** How many snapshots from x on are averaged: they stop at the window's end or at the first one behind the start. */
  function LabelRun(snaps: seq<LabelEntry>, index: nat, x: nat): (r: nat)
    requires index < |snaps|
    ensures x + r <= LabelEnd(snaps, index) || r == 0
    ensures forall y :: x <= y < x + r ==> snaps[y].distanceInRace >= snaps[index].distanceInRace
    ensures x + r < LabelEnd(snaps, index) ==> snaps[x + r].distanceInRace < snaps[index].distanceInRace
    decreases LabelEnd(snaps, index) - x
  {
    if x < LabelEnd(snaps, index) && snaps[x].distanceInRace >= snaps[index].distanceInRace then
      1 + LabelRun(snaps, index, x + 1)
    else 0
  }

  /** The snapshots averaged for the label at `index`: between one and five, all of the same race. */
  function LabelCount(snaps: seq<LabelEntry>, index: nat): (n: nat)
    requires index < |snaps|
    ensures 1 <= n <= LabelWindow && index + n <= |snaps|
    ensures forall y :: index <= y < index + n ==> snaps[y].distanceInRace >= snaps[index].distanceInRace
    ensures index + n < LabelEnd(snaps, index) ==> snaps[index + n].distanceInRace < snaps[index].distanceInRace
  {
    LabelRun(snaps, index, index)
  }

  /** The sum of the powers of a run of snapshots. */
  function PowerSum(es: seq<LabelEntry>): real
  {
    if |es| == 0 then 0.0 else PowerSum(es[..|es| - 1]) + es[|es| - 1].powerNextSecond
  }

  /**
   * trainingSnapshotToAILabel: the mean power of the next second over the
   * snapshots LabelCount picks. At least one is always picked, so the mean
   * never divides by zero.
   */
  method TrainingSnapshotToAiLabel(index: nat, snaps: seq<LabelEntry>) returns (target: seq<real>)
    requires index < |snaps|
    ensures var n := LabelCount(snaps, index);
      target == [PowerSum(snaps[index..index + n]) / n as real]
  {
    var sum := 0.0;
    var count: nat := 0;
    var lastDistance := snaps[index].distanceInRace;
    var x := index;
    while x < LabelEnd(snaps, index)
      invariant index <= x <= LabelEnd(snaps, index) && count == x - index
      invariant sum == PowerSum(snaps[index..x])
      invariant count + LabelRun(snaps, index, x) == LabelCount(snaps, index)
      decreases LabelEnd(snaps, index) - x
    {
      if snaps[x].distanceInRace < lastDistance {
        break;
      }
      PowerSumStep(snaps, index, x);
      sum := sum + snaps[x].powerNextSecond;
      count := count + 1;
      x := x + 1;
    }
    target := [sum / count as real];
  }

  lemma {:induction false} PowerSumStep(snaps: seq<LabelEntry>, index: nat, x: nat)
    requires index <= x < |snaps|
    ensures PowerSum(snaps[index..x + 1]) == PowerSum(snaps[index..x]) + snaps[x].powerNextSecond
  {
    assert snaps[index..x + 1][..x - index] == snaps[index..x];
  }

  /** A sum of n powers, each in [lo, hi], lies in [lo n, hi n]. */
  lemma {:induction false} PowerSumBetween(es: seq<LabelEntry>, n: nat, lo: real, hi: real)
    requires |es| == n
    requires forall k :: 0 <= k < |es| ==> lo <= es[k].powerNextSecond <= hi
    ensures lo * n as real <= PowerSum(es) <= hi * n as real
  {
    if n > 0 {
      PowerSumBetween(es[..n - 1], n - 1, lo, hi);
    }
  }

  /** The label lies between the least and the greatest power it averages. */
  lemma {:induction false} LabelBetween(snaps: seq<LabelEntry>, index: nat, lo: real, hi: real)
    requires index < |snaps|
    requires forall y :: index <= y < index + LabelCount(snaps, index) ==> lo <= snaps[y].powerNextSecond <= hi
    ensures var n := LabelCount(snaps, index);
      lo <= PowerSum(snaps[index..index + n]) / n as real <= hi
  {
    var n := LabelCount(snaps, index);
    var es := snaps[index..index + n];
    assert forall k :: 0 <= k < |es| ==> es[k] == snaps[index + k];
    PowerSumBetween(es, n, lo, hi);
    DivAtLeast(PowerSum(es), lo, n as real);
    DivOfBound(PowerSum(es), hi, n as real);
  }

  // ---------------------------------------------------------------------
  // Columns that never change

  /** One named input of a training row. */
  datatype DataWithName = DataWithName(name: string, data: real)

  /** Every row has at least the columns of the first. */
  predicate Rectangular(data: seq<seq<DataWithName>>)
  {
    |data| > 0 && forall r :: 0 <= r < |data| ==> |data[r]| >= |data[0]|
  }

  /** The values of column c down the rows. */
  function Column(data: seq<seq<DataWithName>>, c: nat): (col: seq<real>)
    requires Rectangular(data) && c < |data[0]|
    ensures |col| == |data| && forall r :: 0 <= r < |data| ==> col[r] == data[r][c].data
  {
    seq(|data|, r requires 0 <= r < |data| => data[r][c].data)
  }

  /** Math.max over a non-empty list: an entry no entry exceeds. */
  function MaxOf(vs: seq<real>): (m: real)
    requires |vs| > 0
    ensures m in vs && forall k :: 0 <= k < |vs| ==> vs[k] <= m
  {
    if |vs| == 1 then vs[0] else Max(MaxOf(vs[..|vs| - 1]), vs[|vs| - 1])
  }

  /** Math.min over a non-empty list: an entry that exceeds no entry. */
  function MinOf(vs: seq<real>): (m: real)
    requires |vs| > 0
    ensures m in vs && forall k :: 0 <= k < |vs| ==> m <= vs[k]
  {
    if |vs| == 1 then vs[0] else Min(MinOf(vs[..|vs| - 1]), vs[|vs| - 1])
  }

  /** Column c holds the same value in every row. */
  predicate ColumnConstant(data: seq<seq<DataWithName>>, c: nat)
    requires Rectangular(data) && c < |data[0]|
  {
    forall r :: 0 <= r < |data| ==> data[r][c].data == data[0][c].data
  }

  /** A column's least and greatest values agree exactly when the column is constant. */
  lemma {:induction false} MinMaxConstant(data: seq<seq<DataWithName>>, c: nat)
    requires Rectangular(data) && c < |data[0]|
    ensures MinOf(Column(data, c)) == MaxOf(Column(data, c)) <==> ColumnConstant(data, c)
  {
    var col := Column(data, c);
    if ColumnConstant(data, c) {
      var lo :| lo in col && lo == MinOf(col);
      var hi :| hi in col && hi == MaxOf(col);
      var p :| 0 <= p < |col| && col[p] == lo;
      var q :| 0 <= q < |col| && col[q] == hi;
      assert col[p] == col[0] == col[q];
    }
  }

  /** The entries are strictly ascending. */
  predicate StrictlyAscending(s: seq<nat>)
  {
    forall p, q :: 0 <= p < q < |s| ==> s[p] < s[q]
  }

  /** killCols after the first m columns: the constant ones, in order. */
  function BoringCols(data: seq<seq<DataWithName>>, m: nat): (kill: seq<nat>)
    requires Rectangular(data) && m <= |data[0]|
    ensures StrictlyAscending(kill) && forall i :: 0 <= i < |kill| ==> kill[i] < m
    ensures forall c: nat :: c in kill <==> c < m && ColumnConstant(data, c)
  {
    if m == 0 then []
    else
      var before := BoringCols(data, m - 1);
      if ColumnConstant(data, m - 1) then before + [m - 1] else before
  }

  /** `.map((dt) => dt.data)`. */
  function DataOf(row: seq<DataWithName>): (r: seq<real>)
    ensures |r| == |row| && forall k :: 0 <= k < |row| ==> r[k] == row[k].data
  {
    seq(|row|, k requires 0 <= k < |row| => row[k].data)
  }

  /** The values of a row without the columns in `kill`, in order. */
  function Survivors(row: seq<DataWithName>, kill: seq<nat>): seq<real>
  {
    if |row| == 0 then []
    else Survivors(row[..|row| - 1], kill) + (if |row| - 1 in kill then [] else [row[|row| - 1].data])
  }

  /**
   * removeBoringColumns: killCols lists, ascending, the columns (of the
   * first row's width) whose least and greatest value agree; every output
   * row is its input row with exactly those columns dropped.
   */
  method RemoveBoringColumns(data: seq<seq<DataWithName>>) returns (allInputDatasAsNumbers: seq<seq<real>>, killCols: seq<nat>)
    requires Rectangular(data)
    ensures StrictlyAscending(killCols)
    ensures forall c: nat :: c in killCols <==> c < |data[0]| && ColumnConstant(data, c)
    ensures |allInputDatasAsNumbers| == |data|
    ensures forall r :: 0 <= r < |data| ==> allInputDatasAsNumbers[r] == Survivors(data[r], killCols)
  {
    killCols := ScanColumns(data);
    allInputDatasAsNumbers := StripRows(data, killCols);
  }

  /** The first half of removeBoringColumns: the columns whose least and greatest value agree, in order. */
  method ScanColumns(data: seq<seq<DataWithName>>) returns (killCols: seq<nat>)
    requires Rectangular(data)
    ensures killCols == BoringCols(data, |data[0]|)
  {
    var cols := |data[0]|;
    killCols := [];
    var ixCol := 0;
    while ixCol < cols
      invariant ixCol <= cols && killCols == BoringCols(data, ixCol)
    {
      var colMax := MaxOf(Column(data, ixCol));
      var colMin := MinOf(Column(data, ixCol));
      MinMaxConstant(data, ixCol);
      if colMin == colMax {
        killCols := killCols + [ixCol];
      }
      assert killCols == BoringCols(data, ixCol + 1);
      ixCol := ixCol + 1;
    }
  }

  /** The second half of removeBoringColumns: every row, its killed columns dropped. */
  method StripRows(data: seq<seq<DataWithName>>, killCols: seq<nat>) returns (allInputDatasAsNumbers: seq<seq<real>>)
    requires Rectangular(data)
    requires StrictlyAscending(killCols) && forall i :: 0 <= i < |killCols| ==> killCols[i] < |data[0]|
    ensures |allInputDatasAsNumbers| == |data|
    ensures forall r :: 0 <= r < |data| ==> allInputDatasAsNumbers[r] == Survivors(data[r], killCols)
  {
    allInputDatasAsNumbers := [];
    var r := 0;
    while r < |data|
      invariant r <= |data| && |allInputDatasAsNumbers| == r
      invariant forall k :: 0 <= k < r ==> allInputDatasAsNumbers[k] == Survivors(data[k], killCols)
    {
      var ret := StripRow(data[r], killCols);
      allInputDatasAsNumbers := allInputDatasAsNumbers + [ret];
      r := r + 1;
    }
  }

  /** The row mapping of removeBoringColumns: the slices between the killed columns, joined. */
  method StripRow(row: seq<DataWithName>, killCols: seq<nat>) returns (ret: seq<real>)
    requires StrictlyAscending(killCols) && forall i :: 0 <= i < |killCols| ==> killCols[i] < |row|
    ensures ret == Survivors(row, killCols)
  {
    ret := [];
    var lastCol: int := -1;
    var i := 0;
    while i < |killCols|
      invariant i <= |killCols| && lastCol == (if i == 0 then -1 else killCols[i - 1])
      invariant ret == Survivors(row[..lastCol + 1], killCols)
    {
      var ixKillCol := killCols[i];
      SurvivorsSpan(row, killCols, lastCol + 1, ixKillCol, i);
      ret := ret + DataOf(row[lastCol + 1..ixKillCol]);
      SurvivorsKilled(row, killCols, ixKillCol);
      lastCol := ixKillCol;
      i := i + 1;
    }
    SurvivorsSpan(row, killCols, lastCol + 1, |row|, i);
    ret := ret + DataOf(row[lastCol + 1..]);
    assert row[..|row|] == row;
  }

  /** Columns a .. b - 1 hold none of `kill` from position i, and i is where `kill` passes a. */
  lemma {:induction false} SurvivorsSpan(row: seq<DataWithName>, kill: seq<nat>, a: nat, b: nat, i: nat)
    requires StrictlyAscending(kill) && a <= b <= |row| && i <= |kill|
    requires forall p :: 0 <= p < i ==> kill[p] < a
    requires i < |kill| ==> kill[i] >= b
    ensures Survivors(row[..b], kill) == Survivors(row[..a], kill) + DataOf(row[a..b])
  {
    SurvivorsRun(row, kill, a, b);
  }

  /** A run of columns a .. b - 1 outside `kill` survives whole. */
  lemma {:induction false} SurvivorsRun(row: seq<DataWithName>, kill: seq<nat>, a: nat, b: nat)
    requires a <= b <= |row|
    requires forall c :: a <= c < b ==> c !in kill
    ensures Survivors(row[..b], kill) == Survivors(row[..a], kill) + DataOf(row[a..b])
    decreases b - a
  {
    if a < b {
      SurvivorsRun(row, kill, a, b - 1);
      SurvivorsStep(row, kill, b);
      assert row[a..b] == row[a..b - 1] + [row[b - 1]];
      DataOfSnoc(row[a..b - 1], row[b - 1]);
      ConcatAssoc(Survivors(row[..a], kill), DataOf(row[a..b - 1]), [row[b - 1].data]);
    } else {
      assert DataOf(row[a..b]) == [];
    }
  }

  /** Column b - 1, outside `kill`, survives after the columns before it. */
  lemma SurvivorsStep(row: seq<DataWithName>, kill: seq<nat>, b: nat)
    requires 0 < b <= |row| && b - 1 !in kill
    ensures Survivors(row[..b], kill) == Survivors(row[..b - 1], kill) + [row[b - 1].data]
  {
    assert row[..b][..b - 1] == row[..b - 1];
  }

  /** Joining sequences does not depend on grouping. */
  lemma ConcatAssoc(x: seq<real>, y: seq<real>, z: seq<real>)
    ensures (x + y) + z == x + (y + z)
  {
  }

  /** The values of a row grown by one entry grow by its value. */
  lemma DataOfSnoc(row: seq<DataWithName>, x: DataWithName)
    ensures DataOf(row + [x]) == DataOf(row) + [x.data]
  {
    assert forall k :: 0 <= k < |row| ==> (row + [x])[k] == row[k];
  }

  /** A killed column adds nothing. */
  lemma {:induction false} SurvivorsKilled(row: seq<DataWithName>, kill: seq<nat>, c: nat)
    requires c < |row| && c in kill
    ensures Survivors(row[..c + 1], kill) == Survivors(row[..c], kill)
  {
    assert row[..c + 1][..c] == row[..c];
  }

  /** Up to just past the i-th killed column, the i killed columns are missing. */
  lemma {:induction false} SurvivorsPrefix(row: seq<DataWithName>, kill: seq<nat>, i: nat)
    requires StrictlyAscending(kill) && forall p :: 0 <= p < |kill| ==> kill[p] < |row|
    requires i <= |kill|
    ensures var a := if i == 0 then 0 else kill[i - 1] + 1; |Survivors(row[..a], kill)| == a - i
  {
    if i > 0 {
      SurvivorsPrefix(row, kill, i - 1);
      var a := if i - 1 == 0 then 0 else kill[i - 2] + 1;
      SurvivorsSpan(row, kill, a, kill[i - 1], i - 1);
      SurvivorsKilled(row, kill, kill[i - 1]);
    }
  }

  /** Every output row is shorter than its input row by the number of killed columns. */
  lemma {:induction false} SurvivorsLength(row: seq<DataWithName>, kill: seq<nat>)
    requires StrictlyAscending(kill) && forall p :: 0 <= p < |kill| ==> kill[p] < |row|
    ensures |Survivors(row, kill)| == |row| - |kill|
  {
    var i := |kill|;
    SurvivorsPrefix(row, kill, i);
    var a := if i == 0 then 0 else kill[i - 1] + 1;
    SurvivorsSpan(row, kill, a, |row|, i);
    assert row[..|row|] == row;
  }

  // ---------------------------------------------------------------------
  // When a snapshot is taken

  lemma StrictFraction(offset: real, span: real)
    requires 0.0 < offset < span
    ensures 0.0 < offset / span < 1.0
  {
    var q := offset / span;
    assert q * span == offset;
    assert (1.0 - q) * span == span - offset;
    MulPosInverse(q, span);
    MulPosInverse(1.0 - q, span);
  }

  lemma MulPosInverse(a: real, b: real)
    requires a * b > 0.0 && b > 0.0
    ensures a > 0.0
  {
    if a <= 0.0 {
      MulNonneg(-a, b);
    }
  }

  /** The place in the race a training snapshot records. */
  datatype SnapshotPlace = SnapshotPlace(distanceToFinish: real, distanceInRace: real, pctOfRaceComplete: real)

  /** Riders this close to the start are not snapshotted. */
  const SnapshotMinDistance: real := 50.0

  /**
   * The null-return guards of takeTrainingSnapshot, in their order, and
   * the race place it records when none applies. The inputs are the
   * rider's distance and finished flag, the course length and whether all
   * racers are finished.
   */
  function SnapshotPlaceOf(distance: real, finished: bool, length: real, allRacersFinished: bool): (r: Option<SnapshotPlace>)
    ensures r.Some? <==> !finished && !allRacersFinished && SnapshotMinDistance < distance < length
    ensures r.Some? ==>
              && r.value.distanceInRace == distance
              && r.value.distanceToFinish > 0.0
              && r.value.distanceInRace + r.value.distanceToFinish == length
              && 0.0 < r.value.pctOfRaceComplete < 1.0
  {
    if distance >= length || finished then None
    else if allRacersFinished then None
    else if finished then None
    else if distance <= SnapshotMinDistance then None
    else
      StrictFraction(distance, length);
      Some(SnapshotPlace(length - distance, distance, distance / length))
  }
}
