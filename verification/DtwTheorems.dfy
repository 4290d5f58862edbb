/** What the banded pass guarantees: the shape and cost of the path it returns, how the band
    relates to the full matrix, and exactly which inputs it rejects. */
module DtwTheorems {
  import opened Basics
  import opened Dtw

  // ---------------------------------------------------------------- the returned path

  /** The `WarpingPath` contract: from `(0, 0)` to `(n - 1, m - 1)`, each step (1,1), (1,0) or (0,1). */
  ghost predicate IsAlignment(w: WarpingPath, n: nat, m: nat) {
    && |w.index1| == |w.index2| > 0
    && w.index1[0] == 0 && w.index2[0] == 0
    && w.index1[|w.index1| - 1] == n - 1 && w.index2[|w.index2| - 1] == m - 1
    && IsWarp(PairsOf(w))
  }

  function PairsOf(w: WarpingPath): (p: seq<Pair>)
    requires |w.index1| == |w.index2|
  {
    seq(|w.index1|, k requires 0 <= k < |w.index1| => Pair(w.index1[k], w.index2[k]))
  }

  lemma {:induction false} PathLength<F>(g: Grid<F>, p: seq<Pair>, i: nat, j: nat)
    requires g.Valid() && g.IsPath(p, i, j) && p != []
    ensures Max(i, j) <= |p| <= i + j - 1
    decreases |p|
  {
    var front := p[..|p| - 1];
    if front == [] {
      assert i == 1 && j == 1;
    } else {
      var q := front[|front| - 1];
      assert Step(q, p[|p| - 1]);
      PathLength(g, front, q.i + 1, q.j + 1);
    }
  }

  /** A sum of terms in `[lo, hi]` is between `lo` and `hi` times their number. */
  lemma {:induction false} SumWithin<F>(g: Grid<F>, p: seq<Pair>, lo: real, hi: real)
    requires forall k :: 0 <= k < |p| ==> p[k].i < |g.a| && p[k].j < |g.b|
    requires forall k :: 0 <= k < |p| ==> lo <= g.Local(p[k]) <= hi
    ensures lo * |p| as real <= g.Sum(p) <= hi * |p| as real
  {
    if p != [] {
      SumWithin(g, p[..|p| - 1], lo, hi);
      assert lo * |p| as real == lo * (|p| - 1) as real + lo;
      assert hi * |p| as real == hi * (|p| - 1) as real + hi;
    }
  }

  /** The returned path is the kernel's trace, paired up again. */
  lemma AcceptedTrace<F>(g: Grid<F>)
    requires g.Valid() && Outcome(g).Ok?
    ensures var w, t := Outcome(g).value, g.Trace(|g.a|, |g.b|);
            && |w.index1| == |w.index2| == |t| && PairsOf(w) == t
            && g.Best(|g.a|, |g.b|).Fin? && w.normalizedDistance == g.Best(|g.a|, |g.b|).v / |t| as real
  {
    var w, t := Outcome(g).value, g.Trace(|g.a|, |g.b|);
    assert w.index1 == Firsts(t) && w.index2 == Seconds(t);
  }

  lemma PathIsAlignment<F>(g: Grid<F>, w: WarpingPath)
    requires g.Valid() && |w.index1| == |w.index2| > 0 && |g.a| > 0 && |g.b| > 0
    requires g.IsPath(PairsOf(w), |g.a|, |g.b|)
    ensures IsAlignment(w, |g.a|, |g.b|)
  {
    var p := PairsOf(w);
    assert p[0] == Pair(w.index1[0], w.index2[0]);
    assert p[|p| - 1] == Pair(w.index1[|p| - 1], w.index2[|p| - 1]);
  }

  /** Backtrack soundness: a successful pass returns a warping path from corner to corner, of
      between max(n, m) and n + m - 1 pairs, whose distances sum to the least in-band cost. */
  ghost predicate IsCheapestAlignment<F>(g: Grid<F>, w: WarpingPath)
    requires g.Valid()
  {
    var n, m := |g.a|, |g.b|;
    && IsAlignment(w, n, m)
    && Max(n, m) <= |w.index1| <= n + m - 1
    && g.IsPath(PairsOf(w), n, m)
    && w.normalizedDistance * |w.index1| as real == g.Sum(PairsOf(w))
    && forall p :: g.IsPath(p, n, m) ==> g.Sum(PairsOf(w)) <= g.Sum(p)
  }

  lemma LeastPathIsCheapest<F>(g: Grid<F>, w: WarpingPath, v: real)
    requires g.Valid() && |g.a| > 0 && |g.b| > 0
    requires |w.index1| == |w.index2| && g.IsPath(PairsOf(w), |g.a|, |g.b|)
    requires w.normalizedDistance == v / |w.index1| as real
    requires g.Sum(PairsOf(w)) == v && g.IsLeastCost(Fin(v), |g.a|, |g.b|)
    ensures IsCheapestAlignment(g, w)
  {
    PathLength(g, PairsOf(w), |g.a|, |g.b|);
    PathIsAlignment(g, w);
  }

  lemma AcceptedPathIsCheapest<F>(g: Grid<F>)
    requires g.Valid() && Outcome(g).Ok?
    ensures IsCheapestAlignment(g, Outcome(g).value)
  {
    AcceptedTrace(g);
    TraceIsCheapest(g, |g.a|, |g.b|);
    BestIsLeast(g, |g.a|, |g.b|);
    LeastPathIsCheapest(g, Outcome(g).value, g.Best(|g.a|, |g.b|).v);
  }

  /** What one banded pass comes to, in terms of its input: an empty side, too large a band, no path inside the band,
      or a cheapest alignment inside it. */
  lemma OutcomeExactly<F>(g: Grid<F>)
    requires g.Valid()
    ensures var n, m := |g.a|, |g.b|;
            if n == 0 || m == 0 then Outcome(g) == Err(AlignmentFailed(EmptySequence))
            else if (n + 1) * (2 * g.band + 1) > 50_000_000 then Outcome(g) == Err(AlignmentTooLarge)
            else if exists p :: g.IsPath(p, n, m) then
              Outcome(g).Ok? && IsCheapestAlignment(g, Outcome(g).value)
            else Outcome(g).Err? && Outcome(g).error.AlignmentFailed?
  {
    hide Grid.Best, Grid.Trace, Grid.IsPath, IsCheapestAlignment, Firsts, Seconds;
    if |g.a| > 0 && |g.b| > 0 {
      BestIsLeast(g, |g.a|, |g.b|);
      CornerInBand(g);
      if Outcome(g).Ok? { AcceptedPathIsCheapest(g); }
    }
  }

  lemma CornerInBand<F>(g: Grid<F>)
    requires g.Valid() && |g.a| > 0 && |g.b| > 0
    ensures !(0 <= |g.b| - (g.center[|g.a|] - g.band) < g.Width()) ==> forall p :: !g.IsPath(p, |g.a|, |g.b|)
  {
    forall p: seq<Pair> | g.IsPath(p, |g.a|, |g.b|) ensures g.InBand(|g.a|, |g.b|) {
      assert g.InBand(p[|p| - 1].i + 1, p[|p| - 1].j + 1);
    }
  }

  ghost predicate PairsWithin<F>(g: Grid<F>, w: WarpingPath, lo: real, hi: real) {
    forall k :: 0 <= k < |w.index1| && k < |w.index2| ==>
                  w.index1[k] < |g.a| && w.index2[k] < |g.b|
                  && lo <= g.dist(g.a[w.index1[k]], g.b[w.index2[k]]) <= hi
  }

  /** The reported distance times the number of pairs is the path's total. */
  ghost predicate IsMean<F>(g: Grid<F>, w: WarpingPath) {
    && |w.index1| == |w.index2| > 0
    && (forall k :: 0 <= k < |w.index1| ==> w.index1[k] < |g.a| && w.index2[k] < |g.b|)
    && w.normalizedDistance * |w.index1| as real == g.Sum(PairsOf(w))
  }

  lemma CheapestIsMean<F>(g: Grid<F>, w: WarpingPath)
    requires g.Valid() && IsCheapestAlignment(g, w)
    ensures IsMean(g, w)
  {
    var p := PairsOf(w);
    forall k | 0 <= k < |w.index1|
      ensures w.index1[k] < |g.a| && w.index2[k] < |g.b|
    {
      assert g.InBand(p[k].i + 1, p[k].j + 1);
    }
  }

  lemma MeanOfPairs<F>(g: Grid<F>, w: WarpingPath, lo: real, hi: real)
    requires IsMean(g, w) && PairsWithin(g, w, lo, hi)
    ensures lo <= w.normalizedDistance <= hi
  {
    SumWithin(g, PairsOf(w), lo, hi);
    MeanWithin(g.Sum(PairsOf(w)), |w.index1|, w.normalizedDistance, lo, hi);
  }

  /** The reported distance is a mean: it lies between any bounds on the pairs' distances. */
  lemma DistanceIsAMean<F>(g: Grid<F>, lo: real, hi: real)
    requires g.Valid() && Outcome(g).Ok? && PairsWithin(g, Outcome(g).value, lo, hi)
    ensures lo <= Outcome(g).value.normalizedDistance <= hi
  {
    AcceptedPathIsCheapest(g);
    CheapestIsMean(g, Outcome(g).value);
    MeanOfPairs(g, Outcome(g).value, lo, hi);
  }

  lemma MeanWithin(total: real, count: nat, mean: real, lo: real, hi: real)
    requires count > 0 && mean * count as real == total
    requires lo * count as real <= total <= hi * count as real
    ensures lo <= mean <= hi
  {
    var c := count as real;
    DivideBoth(lo * c, total, c);
    DivideBoth(total, hi * c, c);
  }

  // ---------------------------------------------------------------- band width

  /** A path of a narrower band is a path of a wider one. */
  lemma WiderBandKeepsPaths<F>(g: Grid<F>, wide: Grid<F>, p: seq<Pair>, i: nat, j: nat)
    requires g.Valid() && wide == g.(band := wide.band) && g.band <= wide.band
    requires g.IsPath(p, i, j)
    ensures wide.IsPath(p, i, j) && wide.Sum(p) == g.Sum(p)
  {
    SameSum(g, wide, p);
  }

  lemma {:induction false} SameSum<F>(g: Grid<F>, h: Grid<F>, p: seq<Pair>)
    requires g.a == h.a && g.b == h.b && g.dist == h.dist
    requires forall k :: 0 <= k < |p| ==> p[k].i < |g.a| && p[k].j < |g.b|
    ensures g.Sum(p) == h.Sum(p)
  {
    if p != [] {
      SameSum(g, h, p[..|p| - 1]);
    }
  }

  /** Widening the band never raises the cost of any cell. */
  lemma WideningNeverCosts<F>(g: Grid<F>, wide: Grid<F>, i: nat, j: nat)
    requires g.Valid() && wide == g.(band := wide.band) && g.band <= wide.band
    ensures AtMost(wide.Best(i, j), g.Best(i, j))
  {
    if g.Best(i, j).Fin? {
      TraceIsCheapest(g, i, j);
      WiderBandKeepsPaths(g, wide, g.Trace(i, j), i, j);
      PathsCostAtLeastBest(wide, g.Trace(i, j), i, j);
    }
  }

  /** An unconstrained warping path over the full `n` by `m` matrix. */
  ghost predicate IsFullPath(p: seq<Pair>, n: nat, m: nat) {
    && p != [] && p[0] == Pair(0, 0) && p[|p| - 1].i == n - 1 && p[|p| - 1].j == m - 1
    && IsWarp(p)
    && forall k :: 0 <= k < |p| ==> p[k].i < n && p[k].j < m
  }

  /** Once the diagonal band covers both lengths, the final cost is that of full-matrix DTW: the
      least over all warping paths. */
  lemma CoveringBandIsFullDtw<F>(g: Grid<F>)
    requires g.center == Diagonal(|g.a|) && |g.a| > 0 && |g.b| > 0
    requires g.band + 1 >= Max(|g.a|, |g.b|)
    ensures var n, m, c := |g.a|, |g.b|, g.Best(|g.a|, |g.b|);
            && c.Fin?
            && (exists p :: IsFullPath(p, n, m) && g.Sum(p) == c.v)
            && (forall p :: IsFullPath(p, n, m) ==> c.v <= g.Sum(p))
  {
    hide Grid.Best, Grid.Trace, Grid.Sum;
    var n, m := |g.a|, |g.b|;
    DiagonalReaches(g);
    TraceIsCheapest(g, n, m);
    var t := g.Trace(n, m);
    assert IsFullPath(t, n, m) && g.Sum(t) == g.Best(n, m).v;
    forall p | IsFullPath(p, n, m)
      ensures g.Best(n, m).v <= g.Sum(p)
    {
      PathsCostAtLeastBest(g, p, n, m);
    }
  }

  // ---------------------------------------------------------------- feasibility

  /** Along the diagonal every cell is reached. */
  lemma {:induction false} DiagonalCellReached<F>(g: Grid<F>, i: nat)
    requires g.center == Diagonal(|g.a|) && i <= |g.a| && i <= |g.b|
    ensures g.Best(i, i).Fin?
  {
    if i > 0 {
      DiagonalCellReached(g, i - 1);
    }
  }

  /** From the end of the shorter side the band runs straight to the corner. */
  lemma {:induction false} CornerReached<F>(g: Grid<F>, i: nat, j: nat)
    requires g.center == Diagonal(|g.a|) && 1 <= i <= |g.a| && 1 <= j <= |g.b|
    requires (i == |g.a| && i <= j) || (j == |g.b| && j <= i)
    requires Gap(i, j) <= g.band
    ensures g.Best(i, j).Fin?
    decreases i + j
  {
    if i == j {
      DiagonalCellReached(g, i);
    } else if i < j {
      CornerReached(g, i, j - 1);
    } else {
      CornerReached(g, i - 1, j);
    }
  }

  lemma DiagonalReaches<F>(g: Grid<F>)
    requires g.center == Diagonal(|g.a|) && |g.a| > 0 && |g.b| > 0
    requires Gap(|g.a|, |g.b|) <= g.band
    ensures g.Best(|g.a|, |g.b|).Fin?
  {
    CornerReached(g, |g.a|, |g.b|);
  }

  /** Exact feasibility of the diagonal pass: past the size guard it fails iff a side is empty or
      the lengths differ by more than the band. */
  lemma DiagonalFailsExactly<F>(g: Grid<F>)
    requires g.center == Diagonal(|g.a|) && !TooManyCells(|g.a|, g.band)
    ensures Outcome(g).Err? <==> |g.a| == 0 || |g.b| == 0 || Gap(|g.a|, |g.b|) > g.band
    ensures Outcome(g).Err? ==> Outcome(g).error.AlignmentFailed?
  {
    if |g.a| > 0 && |g.b| > 0 && Gap(|g.a|, |g.b|) <= g.band {
      DiagonalReaches(g);
    }
  }

  /** A non-decreasing centre from column 0 to the last column. */
  ghost predicate Staircase(center: seq<int>, n: nat, m: nat) {
    && |center| == n + 1 && center[0] == 0 && center[n] == m
    && forall i, j :: 0 <= i <= j <= n ==> center[i] <= center[j]
  }

  /** Step `i` of the centre is too steep for the band to follow. */
  predicate Tears(center: seq<int>, band: nat, i: nat)
    requires 1 <= i < |center|
  {
    if i == 1 then center[1] > band + 1 else center[i] - center[i - 1] > 2 * band + 1
  }

  /** With no tear up to row `i`, the last in-band column of row `i` is reached. */
  lemma {:induction false} RowReached<F>(g: Grid<F>, i: nat)
    requires 1 <= i <= |g.a| && |g.b| > 0 && g.band >= 1 && Staircase(g.center, |g.a|, |g.b|)
    requires forall k :: 1 <= k <= i ==> !Tears(g.center, g.band, k)
    ensures g.Best(i, Min(|g.b|, g.center[i] + g.band)).Fin?
  {
    var last := Min(|g.b|, g.center[i] + g.band);
    assert 0 == g.center[0] <= g.center[i - 1] <= g.center[i] <= g.center[|g.a|];
    assert !Tears(g.center, g.band, i);
    if i == 1 {
      assert g.Best(0, 0).Fin?;
      RowSpreads(g, 1, 1, last);
    } else {
      RowReached(g, i - 1);
      var before := Min(|g.b|, g.center[i - 1] + g.band);
      assert g.Best(i - 1, before).Fin?;
      if before >= g.center[i] - g.band {
        RowSpreads(g, i, before, last);
      } else {
        RowSpreads(g, i, before + 1, last);
      }
    }
  }

  /** Inside a row, reaching a column reaches every later in-band column. */
  lemma {:induction false} RowSpreads<F>(g: Grid<F>, i: nat, from: nat, to: nat)
    requires g.Valid() && i >= 1 && from <= to
    requires g.InBand(i, from) && g.InBand(i, to) && g.BestBefore(i, from).Fin?
    ensures g.Best(i, to).Fin?
  {
    if from < to {
      RowSpreads(g, i, from, to - 1);
      assert g.Best(i, to - 1).Fin?;
    }
  }

  /** Past a tear no row is reached at all. */
  lemma {:induction false} TornRowsUnreached<F>(g: Grid<F>, torn: nat, i: nat, j: nat)
    requires 1 <= torn <= i <= |g.a| && Staircase(g.center, |g.a|, |g.b|)
    requires Tears(g.center, g.band, torn)
    ensures g.Best(i, j).Inf?
    decreases i, j
  {
    if g.InBand(i, j) {
      TornRowsUnreached(g, torn, i, j - 1);
      if i > torn {
        TornRowsUnreached(g, torn, i - 1, j);
        TornRowsUnreached(g, torn, i - 1, j - 1);
      } else {
        assert g.Best(torn - 1, j).Inf? && g.Best(torn - 1, j - 1).Inf?;
      }
    }
  }

  /** Exact feasibility of the refined pass: along a staircase centre, past the size guard, it
      fails iff the first step exceeds `band + 1` or a later one exceeds `2 * band + 1`. */
  lemma StaircaseFailsExactly<F>(g: Grid<F>)
    requires |g.a| > 0 && |g.b| > 0 && g.band >= 1 && Staircase(g.center, |g.a|, |g.b|)
    requires !TooManyCells(|g.a|, g.band)
    ensures Outcome(g).Err? <==> exists i :: 1 <= i <= |g.a| && Tears(g.center, g.band, i)
    ensures Outcome(g).Err? ==> Outcome(g) == Err(AlignmentFailed(NoPath))
  {
    if i :| 1 <= i <= |g.a| && Tears(g.center, g.band, i) {
      TornRowsUnreached(g, i, |g.a|, |g.b|);
    } else {
      RowReached(g, |g.a|);
    }
  }

  // ---------------------------------------------------------------- identical sides

  function DiagonalPairs(n: nat): seq<Pair> {
    seq(n, k requires k >= 0 => Pair(k, k))
  }

  /** The `k`-th frames of both sides are at distance 0 and their cell is inside the band. */
  lemma OneMorePair(n: nat)
    ensures DiagonalPairs(n + 1) == DiagonalPairs(n) + [Pair(n, n)]
  {
  }

  lemma NoPairs()
    ensures DiagonalPairs(0) == []
  {
  }

  predicate FreeDiagonal<F>(g: Grid<F>, k: nat)
    requires g.Valid()
  {
    g.InBand(k + 1, k + 1) && g.dist(g.a[k], g.b[k]) == 0.0
  }

  lemma {:induction false} NonNegative<F>(g: Grid<F>, i: nat, j: nat)
    requires g.Valid()
    requires forall x, y :: 0 <= x < |g.a| && 0 <= y < |g.b| ==> g.dist(g.a[x], g.b[y]) >= 0.0
    ensures g.Best(i, j).Fin? ==> g.Best(i, j).v >= 0.0
    decreases i + j
  {
    if g.Best(i, j).Fin? && i + j > 0 {
      var (pi, pj) := g.Predecessor(i, j);
      NonNegative(g, pi, pj);
    }
  }

  lemma FreeStep<F>(g: Grid<F>, i: nat)
    requires g.Valid() && 1 <= i <= |g.a| && i <= |g.b|
    requires forall x, y :: 0 <= x < |g.a| && 0 <= y < |g.b| ==> g.dist(g.a[x], g.b[y]) >= 0.0
    requires FreeDiagonal(g, i - 1) && g.Best(i - 1, i - 1) == Fin(0.0)
    ensures g.Best(i, i) == Fin(0.0) && g.Predecessor(i, i) == (i - 1, i - 1)
  {
    NonNegative(g, i - 1, i);
    NonNegative(g, i, i - 1);
    assert g.BestBefore(i, i) == Fin(0.0);
  }

  /** Zero distances along an in-band diagonal: every diagonal cell costs nothing and its code is
      diagonal, so the trace is the diagonal itself. */
  lemma {:induction false} ZeroDiagonal<F>(g: Grid<F>, i: nat)
    requires g.Valid() && i <= |g.a| && i <= |g.b|
    requires forall x, y :: 0 <= x < |g.a| && 0 <= y < |g.b| ==> g.dist(g.a[x], g.b[y]) >= 0.0
    requires forall k :: 0 <= k < i ==> FreeDiagonal(g, k)
    ensures g.Best(i, i) == Fin(0.0)
    ensures g.Trace(i, i) == DiagonalPairs(i)
  {
    hide Grid.BestBefore, Grid.Direction, Grid.Predecessor, DiagonalPairs;
    if i > 0 {
      ZeroDiagonal(g, i - 1);
      FreeStep(g, i);
      OneMorePair(i - 1);
    } else {
      NoPairs();
    }
  }
}
