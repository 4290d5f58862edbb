/** Time correspondence built from a warping path (worker/src/vocalcoach/audio/timemap.py) and its
    projection onto a finer hop, the band centre of the second alignment level
    (`refine_center` in worker/src/vocalcoach/dsp/dtw.py). Times are reals. */
module TimeMaps {
  import opened Basics
  import opened Dtw
  import opened DtwTheorems

  // ---------------------------------------------------------------- linear interpolation

  /** The last sample point at or before `x`. */
  function LastAtMost(x: real, xp: seq<real>): (j: nat)
    requires xp != [] && xp[0] <= x
    ensures j < |xp| && xp[j] <= x && (j + 1 < |xp| ==> x < xp[j + 1])
  {
    if xp[|xp| - 1] <= x then |xp| - 1 else LastAtMost(x, xp[..|xp| - 1])
  }

  /** `np.interp`: clamped outside the sample points, linear between two of them. */
  function Interp(x: real, xp: seq<real>, fp: seq<real>): real
    requires |xp| == |fp| > 0
  {
    if x < xp[0] then fp[0]
    else
      var j := LastAtMost(x, xp);
      if j == |xp| - 1 || xp[j] == x then fp[j]
      else Line(xp[j], xp[j + 1], fp[j], fp[j + 1], x)
  }

  /** The line through `(x0, y0)` and `(x1, y1)`. */
  function Line(x0: real, x1: real, y0: real, y1: real, x: real): real
    requires x0 < x1
  {
    (y1 - y0) / (x1 - x0) * (x - x0) + y0
  }

  ghost predicate Sorted(s: seq<real>) {
    forall i, j :: 0 <= i <= j < |s| ==> s[i] <= s[j]
  }

  lemma LineIsMonotone(x0: real, x1: real, y0: real, y1: real, x: real, x': real)
    requires x0 < x1 && y0 <= y1 && x0 <= x <= x' <= x1
    ensures y0 <= Line(x0, x1, y0, y1, x) <= Line(x0, x1, y0, y1, x') <= y1
  {
    var slope := (y1 - y0) / (x1 - x0);
    DivideExact(y1 - y0, x1 - x0);
    ScaleMonotone(slope, 0.0, x - x0);
    ScaleMonotone(slope, x - x0, x' - x0);
    ScaleMonotone(slope, x' - x0, x1 - x0);
    assert Line(x0, x1, y0, y1, x) == slope * (x - x0) + y0;
    assert Line(x0, x1, y0, y1, x') == slope * (x' - x0) + y0;
  }

  /** Between its two neighbouring samples the interpolated value is between theirs. */
  lemma InterpBetween(x: real, xp: seq<real>, fp: seq<real>)
    requires |xp| == |fp| > 0 && Sorted(fp) && xp[0] <= x
    ensures var j := LastAtMost(x, xp);
            fp[j] <= Interp(x, xp, fp) <= if j + 1 < |fp| then fp[j + 1] else fp[j]
  {
    var j := LastAtMost(x, xp);
    if j + 1 < |xp| {
      assert fp[j] <= fp[j + 1];
      LineIsMonotone(xp[j], xp[j + 1], fp[j], fp[j + 1], x, x);
    }
  }

  lemma LastAtMostMonotone(x: real, y: real, xp: seq<real>)
    requires xp != [] && xp[0] <= x <= y && Sorted(xp)
    ensures LastAtMost(x, xp) <= LastAtMost(y, xp)
  {
    var i, j := LastAtMost(x, xp), LastAtMost(y, xp);
    if j < i {
      assert false;
    }
  }

  lemma InterpInRange(x: real, xp: seq<real>, fp: seq<real>)
    requires |xp| == |fp| > 0 && Sorted(fp)
    ensures fp[0] <= Interp(x, xp, fp) <= fp[|fp| - 1]
  {
    if xp[0] <= x {
      InterpBetween(x, xp, fp);
      var j := LastAtMost(x, xp);
      assert fp[0] <= fp[j];
    }
  }

  lemma InterpSameSegment(x: real, y: real, xp: seq<real>, fp: seq<real>)
    requires |xp| == |fp| > 0 && Sorted(fp) && xp[0] <= x <= y
    requires LastAtMost(x, xp) == LastAtMost(y, xp)
    ensures Interp(x, xp, fp) <= Interp(y, xp, fp)
  {
    var j := LastAtMost(x, xp);
    if j + 1 < |xp| {
      assert fp[j] <= fp[j + 1];
      LineIsMonotone(xp[j], xp[j + 1], fp[j], fp[j + 1], x, y);
    }
  }

  lemma InterpLaterSegment(x: real, y: real, xp: seq<real>, fp: seq<real>)
    requires |xp| == |fp| > 0 && Sorted(fp) && xp[0] <= x && xp[0] <= y
    requires LastAtMost(x, xp) < LastAtMost(y, xp)
    ensures Interp(x, xp, fp) <= Interp(y, xp, fp)
  {
    InterpBetween(x, xp, fp);
    InterpBetween(y, xp, fp);
    assert fp[LastAtMost(x, xp) + 1] <= fp[LastAtMost(y, xp)];
  }

  /** Along sorted samples interpolation is non-decreasing. */
  lemma InterpMonotone(x: real, y: real, xp: seq<real>, fp: seq<real>)
    requires |xp| == |fp| > 0 && Sorted(xp) && Sorted(fp) && x <= y
    ensures Interp(x, xp, fp) <= Interp(y, xp, fp)
  {
    if x < xp[0] {
      InterpInRange(y, xp, fp);
    } else {
      LastAtMostMonotone(x, y, xp);
      if LastAtMost(x, xp) == LastAtMost(y, xp) {
        InterpSameSegment(x, y, xp, fp);
      } else {
        InterpLaterSegment(x, y, xp, fp);
      }
    }
  }

  lemma SegmentIsUnique(x: real, xp: seq<real>, j: nat)
    requires Sorted(xp) && j + 1 < |xp| && xp[j] <= x < xp[j + 1]
    ensures xp[0] <= x && LastAtMost(x, xp) == j
  {
    var k := LastAtMost(x, xp);
    if k < j {
      assert false;
    } else if k > j {
      assert false;
    }
  }

  lemma LineRatio(x0: real, x1: real, y0: real, y1: real, x: real)
    requires x0 < x1
    ensures (Line(x0, x1, y0, y1, x) - y0) * (x1 - x0) == (y1 - y0) * (x - x0)
  {
    var slope := (y1 - y0) / (x1 - x0);
    DivideExact(y1 - y0, x1 - x0);
    assert (slope * (x - x0)) * (x1 - x0) == (slope * (x1 - x0)) * (x - x0);
  }

  /** What interpolation is, whatever computes it: constant outside the samples, and between two of them the
      value divides the step in the ratio in which the time divides the interval. */
  lemma InterpExactly(x: real, xp: seq<real>, fp: seq<real>)
    requires |xp| == |fp| > 0 && Sorted(xp)
    ensures x < xp[0] ==> Interp(x, xp, fp) == fp[0]
    ensures x >= xp[|xp| - 1] ==> Interp(x, xp, fp) == fp[|fp| - 1]
    ensures forall j :: 0 <= j < |xp| - 1 && xp[j] <= x < xp[j + 1] ==>
                          (Interp(x, xp, fp) - fp[j]) * (xp[j + 1] - xp[j]) == (fp[j + 1] - fp[j]) * (x - xp[j])
  {
    forall j | 0 <= j < |xp| - 1 && xp[j] <= x < xp[j + 1]
      ensures (Interp(x, xp, fp) - fp[j]) * (xp[j + 1] - xp[j]) == (fp[j + 1] - fp[j]) * (x - xp[j])
    {
      SegmentIsUnique(x, xp, j);
      LineRatio(xp[j], xp[j + 1], fp[j], fp[j + 1], x);
    }
  }

  /** A map whose two sides are equal leaves every time in its range where it is. */
  lemma InterpIdentity(x: real, xp: seq<real>)
    requires xp != [] && Sorted(xp) && xp[0] <= x
    ensures Interp(x, xp, xp) == if x <= xp[|xp| - 1] then x else xp[|xp| - 1]
  {
    var j := LastAtMost(x, xp);
    if j + 1 < |xp| {
      assert xp[j + 1] <= xp[|xp| - 1];
      DivideSelf(xp[j + 1] - xp[j]);
    }
  }

  // ---------------------------------------------------------------- the time map

  /** When frame `i` of a series `hop` apart is. */
  function TimeOf(i: int, hop: real): real {
    i as real * hop
  }

  function Times(index: seq<nat>, hop: real): (t: seq<real>)
    ensures |t| == |index|
  {
    seq(|index|, k requires 0 <= k < |index| => TimeOf(index[k], hop))
  }

  datatype TimeMap = TimeMap(userTimes: seq<real>, referenceTimes: seq<real>) {
    predicate Valid() {
      |userTimes| == |referenceTimes| > 0
    }

    function UserToReference(t: real): real
      requires Valid()
    {
      Interp(t, userTimes, referenceTimes)
    }
  }

  function FromWarpingPath(index1: seq<nat>, index2: seq<nat>, hop: real): TimeMap {
    TimeMap(Times(index1, hop), Times(index2, hop))
  }

  /** The reference times of the first `n` frames of a series `hop` apart. */
  function ReferenceTimes(tm: TimeMap, hop: real, n: nat): (ts: seq<real>)
    requires tm.Valid()
    ensures |ts| == n && forall i :: 0 <= i < n ==> ts[i] == tm.UserToReference(TimeOf(i, hop))
  {
    seq(n, i requires 0 <= i < n => tm.UserToReference(TimeOf(i, hop)))
  }

  /** The frame of a series `hop` apart nearest to time `t`. */
  function FrameAt(t: real, hop: real): int
    requires hop > 0.0
  {
    RoundHalfEven(t / hop)
  }

  lemma FrameAtMonotone(x: real, y: real, hop: real)
    requires x <= y && hop > 0.0
    ensures FrameAt(x, hop) <= FrameAt(y, hop)
  {
    DivideBoth(x, y, hop);
    RoundMonotone(x / hop, y / hop);
  }

  lemma FrameAtExact(i: nat, hop: real)
    requires hop > 0.0
    ensures FrameAt(TimeOf(i, hop), hop) == i
  {
    assert i as real * hop / hop == i as real;
    RoundExact(i);
  }

  lemma SortedTimes(index: seq<nat>, hop: real)
    requires hop >= 0.0 && forall i, j :: 0 <= i <= j < |index| ==> index[i] <= index[j]
    ensures Sorted(Times(index, hop))
  {
    forall i, j | 0 <= i <= j < |index|
      ensures Times(index, hop)[i] <= Times(index, hop)[j]
    {
      ScaleMonotone(hop, index[i] as real, index[j] as real);
    }
  }

  lemma SortedReferenceTimes(tm: TimeMap, hop: real, n: nat)
    requires tm.Valid() && hop >= 0.0 && Sorted(tm.userTimes) && Sorted(tm.referenceTimes)
    ensures Sorted(ReferenceTimes(tm, hop, n))
  {
    hide Interp, LastAtMost, Line;
    forall i, j | 0 <= i <= j < n
      ensures ReferenceTimes(tm, hop, n)[i] <= ReferenceTimes(tm, hop, n)[j]
    {
      var x, y := TimeOf(i, hop), TimeOf(j, hop);
      ScaleMonotone(hop, i as real, j as real);
      assert tm.UserToReference(x) <= tm.UserToReference(y) by {
        InterpMonotone(x, y, tm.userTimes, tm.referenceTimes);
      }
    }
  }

  // ---------------------------------------------------------------- refine_center

  function Clip(x: int, lo: int, hi: int): int {
    Min(Max(x, lo), hi)
  }

  /** Row 0 is column 0; row `k` is centred on the projection of fine frame `k - 1`. */
  function Unspread(ts: seq<real>, hop: real, m: nat, k: nat): int
    requires hop > 0.0 && k <= |ts|
  {
    if k == 0 then 0 else Clip(FrameAt(ts[k - 1], hop), 0, m)
  }

  function Drift(endGap: int, k: nat, n: nat): int
    requires n > 0
  {
    RoundHalfEven((endGap * k) as real / n as real)
  }

  /** The finished centre: the end gap spread proportionally, the last row on the last column. */
  function CenterAt(ts: seq<real>, hop: real, m: nat, k: nat): int
    requires hop > 0.0 && k <= |ts|
  {
    var n := |ts|;
    var endGap := m - Unspread(ts, hop, m, n);
    var spread := if endGap == 0 || n == 0 then Unspread(ts, hop, m, k)
                  else if k == n then m
                  else Unspread(ts, hop, m, k) + Drift(endGap, k, n);
    if k == 0 then spread else Clip(spread, 0, m)
  }

  function RefinedCenter(ts: seq<real>, hop: real, m: nat): (c: seq<int>)
    requires hop > 0.0
    ensures |c| == |ts| + 1 && c[0] == 0
  {
    seq(|ts| + 1, k requires 0 <= k <= |ts| => CenterAt(ts, hop, m, k))
  }

  /** The times `refine_center` projects the fine frames to. */
  function ProjectedTimes(coarse: WarpingPath, coarseHop: real, fineHop: real, n: nat): (ts: seq<real>)
    requires |coarse.index1| == |coarse.index2| > 0
    ensures |ts| == n
  {
    ReferenceTimes(FromWarpingPath(coarse.index1, coarse.index2, coarseHop), fineHop, n)
  }

  method RefineCenter(coarse: WarpingPath, coarseHop: real, fineHop: real, n: nat, m: nat)
    returns (fullCenter: array<int>)
    requires |coarse.index1| == |coarse.index2| > 0 && fineHop > 0.0
    ensures fullCenter[..] == RefinedCenter(ProjectedTimes(coarse, coarseHop, fineHop, n), fineHop, m)
  {
    hide ProjectedTimes, FrameAt, Drift, Clip;
    var ts := ProjectedTimes(coarse, coarseHop, fineHop, n);
    fullCenter := new int[n + 1](_ => 0);
    for i := 0 to n
      invariant forall k :: 0 <= k <= n ==> fullCenter[k] == if k <= i then Unspread(ts, fineHop, m, k) else 0
    {
      fullCenter[i + 1] := Clip(FrameAt(ts[i], fineHop), 0, m);
    }
    var endGap := m - fullCenter[n];
    if endGap != 0 && n > 0 {
      for k := 0 to n + 1
        invariant forall j :: 0 <= j <= n ==>
                                fullCenter[j] == Unspread(ts, fineHop, m, j) + if j < k then Drift(endGap, j, n) else 0
      {
        fullCenter[k] := fullCenter[k] + Drift(endGap, k, n);
      }
      fullCenter[n] := m;
    }
    ghost var spread := fullCenter[..];
    for k := 1 to n + 1
      invariant forall j :: 0 <= j <= n ==> fullCenter[j] == if 1 <= j < k then Clip(spread[j], 0, m) else spread[j]
    {
      fullCenter[k] := Clip(fullCenter[k], 0, m);
    }
  }

  lemma UnspreadMonotone(ts: seq<real>, hop: real, m: nat, i: nat, j: nat)
    requires hop > 0.0 && i <= j <= |ts| && Sorted(ts)
    ensures 0 <= Unspread(ts, hop, m, i) <= Unspread(ts, hop, m, j) <= m
  {
    if i > 0 {
      FrameAtMonotone(ts[i - 1], ts[j - 1], hop);
    }
  }

  lemma DriftMonotone(endGap: nat, i: nat, j: nat, n: nat)
    requires i <= j <= n && n > 0
    ensures Drift(endGap, i, n) <= Drift(endGap, j, n)
  {
    assert endGap * i <= endGap * j by {
      assert endGap * (j - i) >= 0;
    }
    DivideBoth((endGap * i) as real, (endGap * j) as real, n as real);
    RoundMonotone((endGap * i) as real / n as real, (endGap * j) as real / n as real);
  }

  lemma DriftEnds(endGap: nat, n: nat)
    requires n > 0
    ensures Drift(endGap, 0, n) == 0 && Drift(endGap, n, n) == endGap
  {
    assert (endGap * n) as real / n as real == endGap as real;
    RoundExact(endGap);
  }

  lemma CenterMonotone(ts: seq<real>, hop: real, m: nat, i: nat, j: nat)
    requires hop > 0.0 && i <= j <= |ts| && |ts| > 0 && Sorted(ts)
    ensures 0 <= CenterAt(ts, hop, m, i) <= CenterAt(ts, hop, m, j) <= m
  {
    var n := |ts|;
    UnspreadMonotone(ts, hop, m, i, j);
    UnspreadMonotone(ts, hop, m, j, n);
    var endGap: nat := m - Unspread(ts, hop, m, n);
    DriftMonotone(endGap, i, j, n);
    DriftMonotone(endGap, 0, i, n);
    DriftEnds(endGap, n);
  }

  /** `refine_center` is a staircase: for every monotone non-empty coarse path it starts at column
      0, ends at the last column, never goes back and stays inside the reference, because the gap
      left at the end is never negative. */
  lemma RefinedCenterIsStaircase(coarse: WarpingPath, coarseHop: real, fineHop: real, n: nat, m: nat)
    requires |coarse.index1| == |coarse.index2| > 0 && coarseHop >= 0.0 && fineHop > 0.0 && n > 0
    requires forall i, j :: 0 <= i <= j < |coarse.index1| ==> coarse.index1[i] <= coarse.index1[j]
    requires forall i, j :: 0 <= i <= j < |coarse.index2| ==> coarse.index2[i] <= coarse.index2[j]
    ensures var ts := ProjectedTimes(coarse, coarseHop, fineHop, n);
            && Staircase(RefinedCenter(ts, fineHop, m), n, m)
            && (forall k :: 0 <= k <= n ==> 0 <= RefinedCenter(ts, fineHop, m)[k] <= m)
            && Unspread(ts, fineHop, m, n) <= m
  {
    var ts := ProjectedTimes(coarse, coarseHop, fineHop, n);
    SortedTimes(coarse.index1, coarseHop);
    SortedTimes(coarse.index2, coarseHop);
    SortedReferenceTimes(FromWarpingPath(coarse.index1, coarse.index2, coarseHop), fineHop, n);
    UnspreadMonotone(ts, fineHop, m, n, n);
    forall i, j | 0 <= i <= j <= n
      ensures 0 <= CenterAt(ts, fineHop, m, i) <= CenterAt(ts, fineHop, m, j) <= m
    {
      CenterMonotone(ts, fineHop, m, i, j);
    }
  }

  // ---------------------------------------------------------------- where the centre lies

  /** The frame `refine_center` projects fine frame `i` to, before clipping, when a coarse frame is `stride` fine
      ones. */
  function ProjectedFrame(coarse: WarpingPath, stride: nat, hop: real, n: nat, i: nat): int
    requires |coarse.index1| == |coarse.index2| > 0 && hop > 0.0 && i < n
  {
    FrameAt(ProjectedTimes(coarse, stride as real * hop, hop, n)[i], hop)
  }

  /** Both index lists never go back. */
  ghost predicate IsMonotone(coarse: WarpingPath) {
    && |coarse.index1| == |coarse.index2| > 0
    && (forall x, y :: 0 <= x <= y < |coarse.index1| ==> coarse.index1[x] <= coarse.index1[y])
    && (forall x, y :: 0 <= x <= y < |coarse.index2| ==> coarse.index2[x] <= coarse.index2[y])
  }

  lemma HopPositive(stride: nat, hop: real)
    requires stride >= 1 && hop > 0.0
    ensures stride as real * hop > 0.0
  {
  }

  lemma StrideTime(c: nat, stride: nat, hop: real)
    ensures TimeOf(c, stride as real * hop) == TimeOf(stride * c, hop) == (stride * c) as real * hop
  {
    assert (stride * c) as real == stride as real * c as real;
  }

  lemma ScaleOrder(x: int, y: int, hop: real)
    requires hop > 0.0
    ensures x <= y <==> x as real * hop <= y as real * hop
    ensures x < y <==> x as real * hop < y as real * hop
  {
    if x < y { assert (y - x) as real * hop > 0.0; }
    if y < x { assert (x - y) as real * hop > 0.0; }
  }

  /** Frames and times are in proportion: the common hop cancels. */
  lemma HopCancels(t: real, hop: real, a: int, d: int, e: int, f: int)
    requires hop > 0.0
    requires (t - a as real * hop) * (d as real * hop) == (e as real * hop) * (f as real * hop)
    ensures (t / hop - a as real) * d as real == (e * f) as real
  {
    var y := t / hop;
    DivideExact(t, hop);
    var left, right := (y - a as real) * d as real, e as real * f as real;
    assert (t - a as real * hop) == (y - a as real) * hop;
    assert ((y - a as real) * hop) * (d as real * hop) == left * (hop * hop);
    assert (e as real * hop) * (f as real * hop) == right * (hop * hop);
    assert (left - right) * (hop * hop) == 0.0;
    assert hop * hop > 0.0;
    if left != right { assert (left - right) * (hop * hop) != 0.0; }
    assert (e * f) as real == e as real * f as real;
  }

  lemma HalfBounds(p: int, total: int, d: int)
    requires -0.5 * d as real <= p as real - total as real <= 0.5 * d as real
    ensures -d <= 2 * (p - total) <= d
  {
  }

  /** A whole number near a proportional one. */
  lemma NearBy(j: int, d: int, total: int, u: real)
    requires d >= 0 && Product(u, d as real) == total as real && -0.5 <= j as real - u <= 0.5
    ensures -d <= 2 * (j * d - total) <= d
  {
    hide Product;
    WholeProduct(j, d);
    ProductApart(u, j as real, d as real);
    ProductBounds(j as real - u, d as real);
    HalfBounds(j * d, total, d);
  }

  /** Rounding stays within half a frame of the proportion. */
  lemma RoundedProportion(y: real, a: int, d: int, total: int)
    requires d >= 0 && (y - a as real) * d as real == total as real
    ensures -d <= 2 * ((RoundHalfEven(y) - a) * d - total) <= d
  {
    RoundNearest(y);
    hide RoundHalfEven;
    NearBy(RoundHalfEven(y) - a, d, total, y - a as real);
  }

  /** The path leads fine frame `i` of the take to fine frame `f` of the reference. Before its first frame and from
      its last frame on a fine frame goes to that frame's partner; from a coarse frame to the next one on the
      path it divides the step between their partners in proportion, to the nearest frame. */
  ghost predicate LeadsTo(coarse: WarpingPath, stride: nat, i: nat, f: int)
    requires |coarse.index1| == |coarse.index2| > 0
  {
    var last := |coarse.index1| - 1;
    && (i < stride * coarse.index1[0] ==> f == stride * coarse.index2[0])
    && (i >= stride * coarse.index1[last] ==> f == stride * coarse.index2[last])
    && (forall k :: 0 <= k < last && stride * coarse.index1[k] <= i < stride * coarse.index1[k + 1] ==>
                      NearProportion(coarse, stride, k, i, f))
  }

  /** The projection runs from the take's side of the coarse path to the reference's. */
  lemma ProjectionFollowsPath(coarse: WarpingPath, stride: nat, hop: real, n: nat, i: nat)
    requires IsMonotone(coarse) && stride >= 1 && hop > 0.0 && i < n
    ensures LeadsTo(coarse, stride, i, ProjectedFrame(coarse, stride, hop, n, i))
  {
    hide NearProportion, ProjectedFrame;
    ProjectionOutside(coarse, stride, hop, n, i);
    var last := |coarse.index1| - 1;
    forall k | 0 <= k < last && stride * coarse.index1[k] <= i < stride * coarse.index1[k + 1]
      ensures NearProportion(coarse, stride, k, i, ProjectedFrame(coarse, stride, hop, n, i))
    {
      ProjectionInside(coarse, stride, hop, n, i, k);
    }
  }

  lemma ProjectionOutside(coarse: WarpingPath, stride: nat, hop: real, n: nat, i: nat)
    requires IsMonotone(coarse) && stride >= 1 && hop > 0.0 && i < n
    ensures var last, f := |coarse.index1| - 1, ProjectedFrame(coarse, stride, hop, n, i);
            && (i < stride * coarse.index1[0] ==> f == stride * coarse.index2[0])
            && (i >= stride * coarse.index1[last] ==> f == stride * coarse.index2[last])
  {
    hide Interp, TimeOf, FrameAt;
    var coarseHop := stride as real * hop;
    var xp, fp := Times(coarse.index1, coarseHop), Times(coarse.index2, coarseHop);
    HopPositive(stride, hop);
    SortedTimes(coarse.index1, coarseHop);
    KnotOrder(coarse.index1, stride, hop, i);
    KnotFrames(coarse.index2, stride, hop);
    InterpExactly(TimeOf(i, hop), xp, fp);
  }

  lemma ProjectionInside(coarse: WarpingPath, stride: nat, hop: real, n: nat, i: nat, k: nat)
    requires IsMonotone(coarse) && stride >= 1 && hop > 0.0 && i < n && k + 1 < |coarse.index1|
    requires stride * coarse.index1[k] <= i < stride * coarse.index1[k + 1]
    ensures NearProportion(coarse, stride, k, i, ProjectedFrame(coarse, stride, hop, n, i))
  {
    hide Interp, TimeOf, FrameAt, NearProportion;
    var coarseHop := stride as real * hop;
    var xp, fp := Times(coarse.index1, coarseHop), Times(coarse.index2, coarseHop);
    var x := TimeOf(i, hop);
    HopPositive(stride, hop);
    SortedTimes(coarse.index1, coarseHop);
    KnotOrder(coarse.index1, stride, hop, i);
    InterpExactly(x, xp, fp);
    SegmentProportion(coarse, stride, hop, i, k, Interp(x, xp, fp));
  }

  /** `f` is the nearest frame to the proportional point between the partners of coarse frames `k` and `k + 1`; on
      the coarse frame itself it is exactly the partner. */
  ghost predicate NearProportion(coarse: WarpingPath, stride: nat, k: nat, i: nat, f: int)
    requires |coarse.index1| == |coarse.index2| && k + 1 < |coarse.index1|
  {
    var dx := coarse.index1[k + 1] as int - coarse.index1[k];
    var dy := coarse.index2[k + 1] as int - coarse.index2[k];
    && -dx <= 2 * ((f - stride * coarse.index2[k]) * dx - dy * (i - stride * coarse.index1[k])) <= dx
    && (i == stride * coarse.index1[k] ==> f == stride * coarse.index2[k])
    && stride * coarse.index2[k] <= f <= stride * coarse.index2[k + 1]
  }

  lemma StrideCancels(u: real, stride: nat, d: int, total: int)
    requires stride >= 1 && u * (stride * d) as real == (stride * total) as real
    ensures u * d as real == total as real
  {
    var c := stride as real;
    assert (stride * d) as real == c * d as real && (stride * total) as real == c * total as real;
    assert u * (c * d as real) == c * (u * d as real);
    assert c * (u * d as real - total as real) == 0.0;
  }

  lemma CancelFactor(u: real, v: real, c: real)
    requires c > 0.0 && u * c <= v * c
    ensures u <= v
  {
    assert v < u ==> (u - v) * c > 0.0;
  }

  /** A point between two partners, in proportion, rounds to a frame between them. */
  lemma BetweenPartners(y: real, a: int, d: nat, total: nat, b: int)
    requires d > 0 && (y - a as real) * d as real == total as real && total <= (b - a) * d
    ensures a <= RoundHalfEven(y) <= b
    ensures total == 0 ==> RoundHalfEven(y) == a
  {
    CancelFactor(0.0, y - a as real, d as real);
    assert ((b - a) * d) as real == (b as real - a as real) * d as real;
    CancelFactor(y - a as real, b as real - a as real, d as real);
    if total == 0 { CancelFactor(y - a as real, 0.0, d as real); }
    RoundMonotone(a as real, y);
    RoundMonotone(y, b as real);
    RoundExact(a);
    RoundExact(b);
  }

  /** One segment of the path, with the hop taken out. */
  lemma SegmentProportion(coarse: WarpingPath, stride: nat, hop: real, i: nat, k: nat, t: real)
    requires IsMonotone(coarse) && stride >= 1 && hop > 0.0 && k + 1 < |coarse.index1|
    requires stride * coarse.index1[k] <= i < stride * coarse.index1[k + 1]
    requires var xp := Times(coarse.index1, stride as real * hop);
             var fp := Times(coarse.index2, stride as real * hop);
             (t - fp[k]) * (xp[k + 1] - xp[k]) == (fp[k + 1] - fp[k]) * (TimeOf(i, hop) - xp[k])
    ensures NearProportion(coarse, stride, k, i, FrameAt(t, hop))
  {
    hide TimeOf, FrameAt;
    var x0, x1, y0, y1 := coarse.index1[k], coarse.index1[k + 1], coarse.index2[k], coarse.index2[k + 1];
    SegmentTimes(stride, x0, x1, hop);
    SegmentTimes(stride, y0, y1, hop);
    SegmentStart(stride, x0, i, hop);
    SegmentPoint(stride, hop, x0, x1, y0, y1, i, t);
  }

  lemma SegmentStart(stride: nat, x: nat, i: nat, hop: real)
    ensures TimeOf(i, hop) - TimeOf(x, stride as real * hop) == (i - stride * x) as real * hop
  {
    StrideTime(x, stride, hop);
  }

  /** The same in plain numbers, with the hop and the stride cancelled. */
  lemma SegmentExact(stride: nat, hop: real, x0: nat, x1: nat, y0: nat, y1: nat, i: nat, t: real)
    requires stride >= 1 && hop > 0.0
    requires (t - (stride * y0) as real * hop) * ((stride * (x1 - x0)) as real * hop)
             == ((stride * (y1 - y0)) as real * hop) * ((i - stride * x0) as real * hop)
    ensures (t / hop - (stride * y0) as real) * (x1 - x0) as real == ((y1 - y0) * (i - stride * x0)) as real
  {
    var dx: int, dy: int, f: int := x1 - x0, y1 - y0, i - stride * x0;
    HopCancels(t, hop, stride * y0, stride * dx, stride * dy, f);
    assert (stride * dy) * f == stride * (dy * f);
    StrideCancels(t / hop - (stride * y0) as real, stride, dx, dy * f);
  }

  lemma SegmentPoint(stride: nat, hop: real, x0: nat, x1: nat, y0: nat, y1: nat, i: nat, t: real)
    requires stride >= 1 && hop > 0.0 && y0 <= y1 && stride * x0 <= i < stride * x1
    requires (t - (stride * y0) as real * hop) * ((stride * (x1 - x0)) as real * hop)
             == ((stride * (y1 - y0)) as real * hop) * ((i - stride * x0) as real * hop)
    ensures var f, dx, dy := FrameAt(t, hop), x1 as int - x0, y1 as int - y0;
            && -dx <= 2 * ((f - stride * y0) * dx - dy * (i - stride * x0)) <= dx
            && (i == stride * x0 ==> f == stride * y0)
            && stride * y0 <= f <= stride * y1
  {
    hide RoundHalfEven;
    SegmentExact(stride, hop, x0, x1, y0, y1, i, t);
    SegmentFrames(stride, x0, x1, y0, y1, i);
    NoAdvance(y1 - y0, i - stride * x0);
    var total := (y1 - y0) * (i - stride * x0);
    RoundedProportion(t / hop, stride * y0, x1 - x0, total);
    BetweenPartners(t / hop, stride * y0, x1 - x0, total, stride * y1);
  }

  lemma NoAdvance(d: int, f: int)
    ensures f == 0 ==> d * f == 0
  {
  }

  lemma SegmentFrames(stride: nat, x0: nat, x1: nat, y0: nat, y1: nat, i: nat)
    requires stride >= 1 && stride * x0 <= i < stride * x1 && y0 <= y1
    ensures x0 < x1 && 0 <= (y1 - y0) * (i - stride * x0) <= (stride * y1 - stride * y0) * (x1 - x0)
  {
    assert x1 <= x0 ==> stride * x1 <= stride * x0;
    var dx, dy, f := x1 - x0, y1 - y0, i - stride * x0;
    assert stride * x1 - stride * x0 == stride * dx && stride * y1 - stride * y0 == stride * dy;
    assert dy * f <= dy * (stride * dx);
    assert dy * (stride * dx) == (stride * dy) * dx;
  }

  lemma SegmentTimes(stride: nat, x: nat, y: nat, hop: real)
    ensures TimeOf(y, stride as real * hop) - TimeOf(x, stride as real * hop) == (stride * (y - x)) as real * hop
    ensures TimeOf(x, stride as real * hop) == (stride * x) as real * hop
  {
    StrideTime(x, stride, hop);
    StrideTime(y, stride, hop);
    Differences(stride, x, y, hop);
  }

  lemma Differences(stride: nat, x: nat, y: nat, hop: real)
    ensures (stride * y) as real * hop - (stride * x) as real * hop == (stride * (y - x)) as real * hop
  {
    assert (stride * (y - x)) as real == (stride * y) as real - (stride * x) as real;
  }

  lemma KnotOrder(index: seq<nat>, stride: nat, hop: real, i: nat)
    requires hop > 0.0
    ensures var xp := Times(index, stride as real * hop);
            forall k :: 0 <= k < |index| ==> (TimeOf(i, hop) < xp[k] <==> i < stride * index[k])
  {
    forall k | 0 <= k < |index|
      ensures TimeOf(i, hop) < Times(index, stride as real * hop)[k] <==> i < stride * index[k]
    {
      StrideTime(index[k], stride, hop);
      ScaleOrder(i, stride * index[k], hop);
    }
  }

  lemma KnotFrame(c: nat, f: nat, stride: nat, hop: real)
    requires hop > 0.0 && f == stride * c
    ensures FrameAt(TimeOf(c, stride as real * hop), hop) == f
  {
    StrideTime(c, stride, hop);
    FrameAtExact(f, hop);
    hide TimeOf, FrameAt;
  }

  lemma KnotFrames(index: seq<nat>, stride: nat, hop: real)
    requires hop > 0.0
    ensures forall k :: 0 <= k < |index| ==> FrameAt(Times(index, stride as real * hop)[k], hop) == stride * index[k]
  {
    hide TimeOf, FrameAt;
    forall k | 0 <= k < |index| ensures FrameAt(Times(index, stride as real * hop)[k], hop) == stride * index[k] {
      var f := stride * index[k];
      KnotFrame(index[k], f, stride, hop);
    }
  }

  /** How far a row of the finished centre may lie from the projected frame `p`: the share of the end gap that
      falls to it, to the nearest column; the last row is the last column. */
  ghost predicate CarriesItsShare(center: seq<int>, n: nat, m: nat, i: nat, p: int, gap: int)
    requires |center| == n + 1 && i < n
  {
    && p <= center[i + 1] <= p + gap
    && (i + 1 < n ==> -(n as int) <= 2 * ((center[i + 1] - p) * n - gap * (i + 1)) <= n)
    && (i + 1 == n ==> center[i + 1] == m)
  }

  lemma DriftShare(endGap: nat, k: nat, n: nat)
    requires n > 0
    ensures -(n as int) <= 2 * (Drift(endGap, k, n) * n - endGap * k) <= n
  {
    DivideExact((endGap * k) as real, n as real);
    RoundedProportion((endGap * k) as real / n as real, 0, n, endGap * k);
  }

  /** The clip of the spread centre never binds: every row is its projection plus its share of the gap. */
  lemma CenterCarriesShare(ts: seq<real>, hop: real, m: nat, i: nat)
    requires hop > 0.0 && i < |ts| && Sorted(ts)
    ensures var n := |ts|;
            var gap := m - Unspread(ts, hop, m, n);
            gap >= 0 && CarriesItsShare(RefinedCenter(ts, hop, m), n, m, i, Unspread(ts, hop, m, i + 1), gap)
  {
    hide FrameAt, Drift;
    var n := |ts|;
    UnspreadMonotone(ts, hop, m, i + 1, n);
    var gap: nat := m - Unspread(ts, hop, m, n);
    DriftShare(gap, i + 1, n);
    DriftMonotone(gap, 0, i + 1, n);
    DriftMonotone(gap, i + 1, n, n);
    DriftEnds(gap, n);
  }

  /** Where the refined pass looks: the row of fine frame `i` is centred on the frame the coarse path leads to,
      clipped to the reference, plus its share of the gap the path leaves at the end. */
  lemma CenterFollowsPath(coarse: WarpingPath, stride: nat, hop: real, n: nat, m: nat, i: nat)
    requires IsMonotone(coarse) && stride >= 1 && hop > 0.0 && i < n
    ensures var center := RefinedCenter(ProjectedTimes(coarse, stride as real * hop, hop, n), hop, m);
            var gap := m - Min(ProjectedFrame(coarse, stride, hop, n, n - 1), m);
            && 0 <= ProjectedFrame(coarse, stride, hop, n, i) && gap >= 0
            && CarriesItsShare(center, n, m, i, Min(ProjectedFrame(coarse, stride, hop, n, i), m), gap)
  {
    hide RefinedCenter, CarriesItsShare, FrameAt;
    var coarseHop := stride as real * hop;
    var ts := ProjectedTimes(coarse, coarseHop, hop, n);
    HopPositive(stride, hop);
    SortedTimes(coarse.index1, coarseHop);
    SortedTimes(coarse.index2, coarseHop);
    SortedReferenceTimes(FromWarpingPath(coarse.index1, coarse.index2, coarseHop), hop, n);
    ProjectsForward(coarse, stride, hop, n, i);
    ProjectsForward(coarse, stride, hop, n, n - 1);
    CenterCarriesShare(ts, hop, m, i);
  }

  lemma ProjectsForward(coarse: WarpingPath, stride: nat, hop: real, n: nat, i: nat)
    requires IsMonotone(coarse) && stride >= 1 && hop > 0.0 && i < n
    ensures ProjectedFrame(coarse, stride, hop, n, i) >= 0
  {
    hide Interp, FrameAt, TimeOf;
    var coarseHop := stride as real * hop;
    var xp, fp := Times(coarse.index1, coarseHop), Times(coarse.index2, coarseHop);
    HopPositive(stride, hop);
    SortedTimes(coarse.index2, coarseHop);
    InterpInRange(TimeOf(i, hop), xp, fp);
    KnotFrames(coarse.index2, stride, hop);
    FrameAtMonotone(fp[0], Interp(TimeOf(i, hop), xp, fp), hop);
  }
}
