/** Banded dynamic time warping (worker/src/vocalcoach/dsp/dtw.py): the cost kernel over a
    sliding band, the backtrack over the predecessor matrix, and what they compute. */
module Dtw {
  import opened Basics

  /** A DP cell: `inf` is explicit. */
  datatype Cost = Inf | Fin(v: real)

  /** A matched frame pair, 0-based. */
  datatype Pair = Pair(i: nat, j: nat)

  function Plus(d: real, c: Cost): Cost {
    match c
    case Inf => Inf
    case Fin(v) => Fin(d + v)
  }

  predicate Less(x: Cost, y: Cost) {
    x.Fin? && (y.Inf? || x.v < y.v)
  }

  predicate AtMost(x: Cost, y: Cost) {
    !Less(y, x)
  }

  /** One banded alignment problem. Row `i` of the band is centred on column `center[i]`. */
  datatype Grid<!F> = Grid(a: seq<F>, b: seq<F>, dist: (F, F) -> real, center: seq<int>, band: nat) {

    predicate Valid() {
      |center| == |a| + 1 && center[0] == 0
    }

    function Width(): nat {
      2 * band + 1
    }

    /** The cells of row `i` the kernel fills: 1-based columns inside the band. */
    predicate InBand(i: int, j: int)
      requires Valid()
    {
      1 <= i <= |a| && 1 <= j <= |b| && center[i] - band <= j <= center[i] + band
    }

    function Local(p: Pair): real
      requires p.i < |a| && p.j < |b|
    {
      dist(a[p.i], b[p.j])
    }

    /** The value the kernel stores for matching `a[..i]` to `b[..j]`. */
    function Best(i: nat, j: nat): Cost
      requires Valid()
      decreases i + j
    {
      if i == 0 && j == 0 then Fin(0.0)
      else if !InBand(i, j) then Inf
      else Plus(Local(Pair(i - 1, j - 1)), BestBefore(i, j))
    }

    /** The cheapest of the three predecessors, chosen by `Direction`. */
    function BestBefore(i: nat, j: nat): Cost
      requires Valid() && InBand(i, j)
      decreases i + j, 0
    {
      var diag, up, left := Best(i - 1, j - 1), Best(i - 1, j), Best(i, j - 1);
      var first := if Less(up, diag) then up else diag;
      if Less(left, first) then left else first
    }

    /** Predecessor code of a cell: 0 diagonal, 1 up, 2 left, -1 unreached. Ties go to the
        earlier code because the kernel compares strictly. */
    function Direction(i: nat, j: nat): int
      requires Valid()
    {
      if !InBand(i, j) || BestBefore(i, j).Inf? then -1
      else if Best(i - 1, j - 1) == BestBefore(i, j) then 0
      else if Best(i - 1, j) == BestBefore(i, j) then 1
      else 2
    }

    /** The cell a reached cell's code points to. */
    function Predecessor(i: nat, j: nat): (c: (nat, nat))
      requires Valid() && Best(i, j).Fin? && i + j > 0
      ensures InBand(i, j) && Best(c.0, c.1) == BestBefore(i, j)
      ensures c.0 <= i && c.1 <= j && c.0 + c.1 < i + j
    {
      var d := Direction(i, j);
      if d == 0 then (i - 1, j - 1) else if d == 1 then (i - 1, j) else (i, j - 1)
    }

    /** `p` is a warping path inside the band whose last pair is cell `(i, j)`; the empty path
        reaches only the origin. */
    ghost predicate IsPath(p: seq<Pair>, i: nat, j: nat)
      requires Valid()
    {
      if p == [] then i == 0 && j == 0
      else
        && p[0] == Pair(0, 0)
        && i >= 1 && j >= 1 && p[|p| - 1] == Pair(i - 1, j - 1)
        && (forall k :: 0 <= k < |p| ==> InBand(p[k].i + 1, p[k].j + 1))
        && IsWarp(p)
    }

    function Sum(p: seq<Pair>): real
      requires forall k :: 0 <= k < |p| ==> p[k].i < |a| && p[k].j < |b|
    {
      if p == [] then 0.0 else Sum(p[..|p| - 1]) + Local(p[|p| - 1])
    }

    /** `c` is the least total distance of the band's warping paths to cell `(i, j)`. */
    ghost predicate IsLeastCost(c: Cost, i: nat, j: nat)
      requires Valid()
    {
      match c
      case Inf => forall p :: !IsPath(p, i, j)
      case Fin(v) =>
        && (exists p :: IsPath(p, i, j) && Sum(p) == v)
        && (forall p :: IsPath(p, i, j) ==> v <= Sum(p))
    }

    /** The path the predecessor codes spell out. */
    function Trace(i: nat, j: nat): seq<Pair>
      requires Valid() && Best(i, j).Fin?
      decreases i + j
    {
      if i == 0 && j == 0 then []
      else
        var (pi, pj) := Predecessor(i, j);
        Trace(pi, pj) + [Pair(i - 1, j - 1)]
    }
  }

  /** Consecutive pairs advance by (1,1), (1,0) or (0,1). */
  predicate Step(p: Pair, q: Pair) {
    q == Pair(p.i + 1, p.j + 1) || q == Pair(p.i + 1, p.j) || q == Pair(p.i, p.j + 1)
  }

  ghost predicate IsWarp(p: seq<Pair>) {
    forall k :: 0 <= k < |p| - 1 ==> Step(p[k], p[k + 1])
  }

  // ---------------------------------------------------------------- optimality

  /** A path without its last pair is a path to one of the three predecessors. */
  lemma FrontIsPath<F>(g: Grid<F>, p: seq<Pair>, i: nat, j: nat) returns (pi: nat, pj: nat)
    requires g.Valid() && g.IsPath(p, i, j) && p != []
    ensures g.InBand(i, j) && g.IsPath(p[..|p| - 1], pi, pj)
    ensures (pi, pj) == (i - 1, j - 1) || (pi, pj) == (i - 1, j) || (pi, pj) == (i, j - 1)
    ensures g.Sum(p) == g.Sum(p[..|p| - 1]) + g.Local(Pair(i - 1, j - 1))
  {
    var front := p[..|p| - 1];
    assert g.InBand(p[|p| - 1].i + 1, p[|p| - 1].j + 1);
    if front == [] {
      pi, pj := 0, 0;
    } else {
      var q := front[|front| - 1];
      assert Step(p[|p| - 2], p[|p| - 1]);
      pi, pj := q.i + 1, q.j + 1;
    }
  }

  /** A cell costs at most any predecessor plus its own distance. */
  lemma StepCosts<F>(g: Grid<F>, pi: nat, pj: nat, i: nat, j: nat)
    requires g.Valid() && g.InBand(i, j) && g.Best(pi, pj).Fin?
    requires (pi, pj) == (i - 1, j - 1) || (pi, pj) == (i - 1, j) || (pi, pj) == (i, j - 1)
    ensures g.Best(i, j).Fin? && g.Best(i, j).v <= g.Best(pi, pj).v + g.Local(Pair(i - 1, j - 1))
  {
  }

  lemma {:induction false} PathsCostAtLeastBest<F>(g: Grid<F>, p: seq<Pair>, i: nat, j: nat)
    requires g.Valid() && g.IsPath(p, i, j)
    ensures g.Best(i, j).Fin? && g.Best(i, j).v <= g.Sum(p)
    decreases |p|
  {
    if p != [] {
      var pi, pj := FrontIsPath(g, p, i, j);
      hide Grid.IsPath, Grid.Best, Grid.Sum;
      PathsCostAtLeastBest(g, p[..|p| - 1], pi, pj);
      StepCosts(g, pi, pj, i, j);
    }
  }

  lemma PathExtends<F>(g: Grid<F>, front: seq<Pair>, pi: nat, pj: nat, i: nat, j: nat)
    requires g.Valid() && g.IsPath(front, pi, pj) && g.InBand(i, j)
    requires (pi, pj) == (i - 1, j - 1) || (pi, pj) == (i - 1, j) || (pi, pj) == (i, j - 1)
    requires front == [] ==> i == 1 && j == 1
    ensures g.IsPath(front + [Pair(i - 1, j - 1)], i, j)
    ensures g.Sum(front + [Pair(i - 1, j - 1)]) == g.Sum(front) + g.Local(Pair(i - 1, j - 1))
  {
    var p := front + [Pair(i - 1, j - 1)];
    assert p[..|p| - 1] == front;
  }

  lemma {:induction false} TraceIsCheapest<F>(g: Grid<F>, i: nat, j: nat)
    requires g.Valid() && g.Best(i, j).Fin?
    ensures g.IsPath(g.Trace(i, j), i, j)
    ensures g.Sum(g.Trace(i, j)) == g.Best(i, j).v
    decreases i + j
  {
    if i + j > 0 {
      var (pi, pj) := g.Predecessor(i, j);
      TraceIsCheapest(g, pi, pj);
      PathExtends(g, g.Trace(pi, pj), pi, pj, i, j);
    }
  }

  /** Kernel optimality: every stored value is the least total distance over the in-band warping
      paths to its cell, and infinite exactly when there is none. */
  lemma BestIsLeast<F>(g: Grid<F>, i: nat, j: nat)
    requires g.Valid()
    ensures g.IsLeastCost(g.Best(i, j), i, j)
  {
    if g.Best(i, j).Fin? {
      TraceIsCheapest(g, i, j);
      forall p | g.IsPath(p, i, j)
        ensures g.Best(i, j).v <= g.Sum(p)
      {
        PathsCostAtLeastBest(g, p, i, j);
      }
    } else {
      forall p
        ensures !g.IsPath(p, i, j)
      {
        if g.IsPath(p, i, j) {
          PathsCostAtLeastBest(g, p, i, j);
        }
      }
    }
  }

  // ---------------------------------------------------------------- kernel

  /** Column `off` of banded row `i` holds column `off + center[i] - band` of the full matrix. */
  function Stored<F>(g: Grid<F>, i: nat, off: nat): Cost
    requires g.Valid() && i <= |g.a|
  {
    var j := off + g.center[i] - g.band;
    if j < 0 then Inf else g.Best(i, j)
  }

  function StoredDirection<F>(g: Grid<F>, i: nat, off: nat): int
    requires g.Valid() && i <= |g.a|
  {
    var j := off + g.center[i] - g.band;
    if j < 0 then -1 else g.Direction(i, j)
  }

  ghost predicate RowDone<F>(g: Grid<F>, costs: array2<Cost>, prev: array2<int>, i: nat)
    requires g.Valid() && i <= |g.a|
    requires costs.Length0 == prev.Length0 == |g.a| + 1 && costs.Length1 == prev.Length1 == g.Width()
    reads costs, prev
  {
    forall off :: 0 <= off < g.Width() ==>
                    costs[i, off] == Stored(g, i, off) && prev[i, off] == StoredDirection(g, i, off)
  }

  /** A column the band does not store is unreachable. */
  lemma OutsideBandIsInf<F>(g: Grid<F>, i: nat, j: nat)
    requires g.Valid() && i <= |g.a|
    requires !(0 <= j - (g.center[i] - g.band) < g.Width())
    ensures g.Best(i, j).Inf?
  {
  }

  /** Reading column `j` of a finished row gives the spec's value, stored or not. */
  lemma ReadsBest<F>(g: Grid<F>, costs: array2<Cost>, prev: array2<int>, i: nat, j: nat)
    requires g.Valid() && i <= |g.a|
    requires costs.Length0 == prev.Length0 == |g.a| + 1 && costs.Length1 == prev.Length1 == g.Width()
    requires RowDone(g, costs, prev, i)
    ensures var off := j - (g.center[i] - g.band);
            g.Best(i, j) == if 0 <= off < g.Width() then costs[i, off] else Inf
  {
    var off := j - (g.center[i] - g.band);
    if 0 <= off < g.Width() {
      assert costs[i, off] == Stored(g, i, off);
    } else {
      OutsideBandIsInf(g, i, j);
    }
  }

  /** The kernel's three strict comparisons choose the value and the code. */
  lemma ChosenPredecessor<F>(g: Grid<F>, i: nat, j: nat)
    requires g.Valid() && g.InBand(i, j)
    ensures var diag, up, left := g.Best(i - 1, j - 1), g.Best(i - 1, j), g.Best(i, j - 1);
            var first := if Less(up, diag) then up else diag;
            var code := if Less(up, diag) then 1 else if diag.Fin? then 0 else -1;
            && g.BestBefore(i, j) == (if Less(left, first) then left else first)
            && g.Direction(i, j) == if Less(left, first) then 2 else code
  {
    hide Grid.Best;
  }

  /** The body of the kernel's inner loop up to its two stores. */
  method CheapestPredecessor<F>(g: Grid<F>, costs: array2<Cost>, prev: array2<int>, i: nat, j: nat)
    returns (best: Cost, bestDir: int)
    requires g.Valid() && g.InBand(i, j)
    requires costs.Length0 == prev.Length0 == |g.a| + 1 && costs.Length1 == prev.Length1 == g.Width()
    requires RowDone(g, costs, prev, i - 1)
    requires var left := j - 1 - (g.center[i] - g.band); left >= 0 ==> costs[i, left] == Stored(g, i, left)
    ensures best == g.BestBefore(i, j) && bestDir == g.Direction(i, j)
  {
    hide Grid.Best, Grid.BestBefore, Grid.Direction, RowDone;
    ChosenPredecessor(g, i, j);
    best, bestDir := Inf, -1;
    var basePrev := g.center[i - 1] - g.band;
    ghost var diag, up, left := g.Best(i - 1, j - 1), g.Best(i - 1, j), g.Best(i, j - 1);

    var offDiag := j - 1 - basePrev;
    ReadsBest(g, costs, prev, i - 1, j - 1);
    if 0 <= offDiag < g.Width() && Less(costs[i - 1, offDiag], best) {
      best, bestDir := costs[i - 1, offDiag], 0;
    }
    assert best == diag && bestDir == if diag.Fin? then 0 else -1;

    var offUp := j - basePrev;
    ReadsBest(g, costs, prev, i - 1, j);
    if 0 <= offUp < g.Width() && Less(costs[i - 1, offUp], best) {
      best, bestDir := costs[i - 1, offUp], 1;
    }
    assert best == (if Less(up, diag) then up else diag)
           && bestDir == if Less(up, diag) then 1 else if diag.Fin? then 0 else -1;

    var offLeft := j - 1 - (g.center[i] - g.band);
    if offLeft < 0 {
      OutsideBandIsInf(g, i, j - 1);
    }
    if 0 <= offLeft < g.Width() && Less(costs[i, offLeft], best) {
      best, bestDir := costs[i, offLeft], 2;
    }
    assert best == g.BestBefore(i, j);
  }

  /** Row `i` is filled up to column `j` and untouched from there on. */
  ghost predicate RowUpTo<F>(g: Grid<F>, costs: array2<Cost>, prev: array2<int>, i: nat, j: int)
    requires g.Valid() && i <= |g.a|
    requires costs.Length0 == prev.Length0 == |g.a| + 1 && costs.Length1 == prev.Length1 == g.Width()
    reads costs, prev
  {
    forall off :: 0 <= off < g.Width() ==>
                    if off + g.center[i] - g.band < j
                    then costs[i, off] == Stored(g, i, off) && prev[i, off] == StoredDirection(g, i, off)
                    else costs[i, off] == Inf && prev[i, off] == -1
  }

  /** What the kernel stores for one cell. */
  lemma CellValue<F>(g: Grid<F>, i: nat, j: nat)
    requires g.Valid() && 1 <= i <= |g.a|
    ensures if g.InBand(i, j) then g.Best(i, j) == Plus(g.Local(Pair(i - 1, j - 1)), g.BestBefore(i, j))
            else g.Best(i, j) == Inf && g.Direction(i, j) == -1
  {
  }

  /** A row of infinities is filled up to the first column of the band. */
  lemma RowStart<F>(g: Grid<F>, costs: array2<Cost>, prev: array2<int>, i: nat, j: int)
    requires g.Valid() && 1 <= i <= |g.a| && j == Max(1, g.center[i] - g.band)
    requires costs.Length0 == prev.Length0 == |g.a| + 1 && costs.Length1 == prev.Length1 == g.Width()
    requires forall off :: 0 <= off < g.Width() ==> costs[i, off] == Inf && prev[i, off] == -1
    ensures RowUpTo(g, costs, prev, i, j)
  {
    hide Grid.Best, Grid.Direction;
    forall off | 0 <= off < g.Width() && off + g.center[i] - g.band < j
      ensures Stored(g, i, off) == Inf && StoredDirection(g, i, off) == -1
    {
      if off + g.center[i] - g.band >= 0 { CellValue(g, i, off + g.center[i] - g.band); }
    }
  }

  /** A row filled past the last column of the band is done. */
  lemma RowEnd<F>(g: Grid<F>, costs: array2<Cost>, prev: array2<int>, i: nat, j: int)
    requires g.Valid() && 1 <= i <= |g.a| && j > Min(|g.b|, g.center[i] + g.band) && j >= 1
    requires costs.Length0 == prev.Length0 == |g.a| + 1 && costs.Length1 == prev.Length1 == g.Width()
    requires RowUpTo(g, costs, prev, i, j)
    ensures RowDone(g, costs, prev, i)
  {
    hide Grid.Best, Grid.Direction;
    forall off | 0 <= off < g.Width() && off + g.center[i] - g.band >= j
      ensures Stored(g, i, off) == Inf && StoredDirection(g, i, off) == -1
    {
      CellValue(g, i, off + g.center[i] - g.band);
    }
  }

  /** The kernel's inner loop: one row of the band, left to right. */
  method FillRow<F>(g: Grid<F>, costs: array2<Cost>, prev: array2<int>, i: nat)
    requires g.Valid() && 1 <= i <= |g.a|
    requires costs.Length0 == prev.Length0 == |g.a| + 1 && costs.Length1 == prev.Length1 == g.Width()
    requires RowDone(g, costs, prev, i - 1)
    requires forall off :: 0 <= off < g.Width() ==> costs[i, off] == Inf && prev[i, off] == -1
    modifies costs, prev
    ensures RowDone(g, costs, prev, i)
    ensures forall r, off :: 0 <= r <= |g.a| && r != i && 0 <= off < g.Width() ==>
                               costs[r, off] == old(costs[r, off]) && prev[r, off] == old(prev[r, off])
  {
    hide Grid.Best, Grid.BestBefore, Grid.Direction;
    var jLo, jHi := Max(1, g.center[i] - g.band), Min(|g.b|, g.center[i] + g.band);
    var j := jLo;
    RowStart(g, costs, prev, i, j);
    while j <= jHi
      invariant jLo <= j
      invariant RowUpTo(g, costs, prev, i, j)
      invariant forall r, off :: 0 <= r <= |g.a| && r != i && 0 <= off < g.Width() ==>
                                   costs[r, off] == old(costs[r, off]) && prev[r, off] == old(prev[r, off])
    {
      var off := j - (g.center[i] - g.band);
      assert RowDone(g, costs, prev, i - 1);
      var best, bestDir := CheapestPredecessor(g, costs, prev, i, j);
      CellValue(g, i, j);
      assert Plus(g.dist(g.a[i - 1], g.b[j - 1]), best) == Stored(g, i, off);
      costs[i, off] := Plus(g.dist(g.a[i - 1], g.b[j - 1]), best);
      prev[i, off] := bestDir;
      j := j + 1;
    }
    RowEnd(g, costs, prev, i, j);
  }

  /** Fills the banded cost matrix and its predecessor codes. */
  method BandedDtwKernel<F>(g: Grid<F>) returns (costs: array2<Cost>, prev: array2<int>)
    requires g.Valid()
    ensures costs.Length0 == prev.Length0 == |g.a| + 1 && costs.Length1 == prev.Length1 == g.Width()
    ensures forall i :: 0 <= i <= |g.a| ==> RowDone(g, costs, prev, i)
    ensures forall i, off :: 0 <= i <= |g.a| && 0 <= off < g.Width() && off + g.center[i] - g.band >= 0 ==>
                               g.IsLeastCost(costs[i, off], i, off + g.center[i] - g.band)
  {
    costs := new Cost[|g.a| + 1, g.Width()]((_, _) => Inf);
    prev := new int[|g.a| + 1, g.Width()]((_, _) => -1);
    costs[0, g.band] := Fin(0.0);

    for i := 1 to |g.a| + 1
      invariant forall r :: 0 <= r < i ==> RowDone(g, costs, prev, r)
      invariant forall r, off :: i <= r <= |g.a| && 0 <= off < g.Width() ==> costs[r, off] == Inf && prev[r, off] == -1
    {
      label before:
      FillRow(g, costs, prev, i);
      forall r | 0 <= r < i
        ensures RowDone(g, costs, prev, r)
      {
        assert old@before(RowDone(g, costs, prev, r));
      }
    }
    forall i, off | 0 <= i <= |g.a| && 0 <= off < g.Width() && off + g.center[i] - g.band >= 0
      ensures g.IsLeastCost(costs[i, off], i, off + g.center[i] - g.band)
    {
      assert RowDone(g, costs, prev, i);
      BestIsLeast(g, i, off + g.center[i] - g.band);
    }
  }

  // ---------------------------------------------------------------- backtrack

  ghost predicate DirectionsDone<F>(g: Grid<F>, prev: array2<int>)
    requires g.Valid()
    reads prev
  {
    && prev.Length0 == |g.a| + 1 && prev.Length1 == g.Width()
    && forall i, off :: 0 <= i <= |g.a| && 0 <= off < g.Width() ==> prev[i, off] == StoredDirection(g, i, off)
  }

  /** The cell (1-based) a stored code leads to from cell `c`. */
  function Next(code: int, c: Pair): Pair
    requires c.i >= 1 && c.j >= 1
  {
    if code == 0 then Pair(c.i - 1, c.j - 1) else if code == 1 then Pair(c.i - 1, c.j) else Pair(c.i, c.j - 1)
  }

  /** The cell reached after the first `k` pairs of `t`. */
  function CellAfter(t: seq<Pair>, k: nat): Pair
    requires k <= |t|
  {
    if k == 0 then Pair(0, 0) else Pair(t[k - 1].i + 1, t[k - 1].j + 1)
  }

  /** The stored code of the cell after `k` pairs is inside the band and leads one pair back. */
  ghost predicate Linked<F>(g: Grid<F>, prev: array2<int>, t: seq<Pair>, k: nat)
    requires g.Valid() && prev.Length0 == |g.a| + 1 && prev.Length1 == g.Width()
    requires 1 <= k <= |t|
    reads prev
  {
    var c := CellAfter(t, k);
    && g.InBand(c.i, c.j)
    && Next(prev[c.i, c.j - (g.center[c.i] - g.band)], c) == CellAfter(t, k - 1)
  }

  /** Which predecessor a reached cell's code names: a cheapest one, and of equally cheap ones the diagonal before
      the upper and the upper before the left. */
  lemma DirectionExactly<F>(g: Grid<F>, i: nat, j: nat)
    requires g.Valid() && g.InBand(i, j) && g.Best(i, j).Fin?
    ensures var diag, up, left := g.Best(i - 1, j - 1), g.Best(i - 1, j), g.Best(i, j - 1);
            && (g.Direction(i, j) == 0 <==> AtMost(diag, up) && AtMost(diag, left))
            && (g.Direction(i, j) == 1 <==> Less(up, diag) && AtMost(up, left))
            && (g.Direction(i, j) == 2 <==> Less(left, diag) && Less(left, up))
  {
    CellValue(g, i, j);
    hide Grid.Best;
  }

  lemma {:induction false} TraceIsLinked<F>(g: Grid<F>, prev: array2<int>, i: nat, j: nat)
    requires g.Valid() && DirectionsDone(g, prev) && g.Best(i, j).Fin?
    ensures var t := g.Trace(i, j);
            CellAfter(t, |t|) == Pair(i, j) && forall k :: 1 <= k <= |t| ==> Linked(g, prev, t, k)
    decreases i + j
  {
    if i + j > 0 {
      var (pi, pj) := g.Predecessor(i, j);
      TraceIsLinked(g, prev, pi, pj);
      LinkLast(g, prev, g.Trace(pi, pj), i, j);
    }
  }

  lemma LinkLast<F>(g: Grid<F>, prev: array2<int>, front: seq<Pair>, i: nat, j: nat)
    requires g.Valid() && DirectionsDone(g, prev) && g.Best(i, j).Fin? && i + j > 0
    requires CellAfter(front, |front|) == Pair(g.Predecessor(i, j).0, g.Predecessor(i, j).1)
    requires forall k :: 1 <= k <= |front| ==> Linked(g, prev, front, k)
    ensures var t := front + [Pair(i - 1, j - 1)];
            CellAfter(t, |t|) == Pair(i, j) && forall k :: 1 <= k <= |t| ==> Linked(g, prev, t, k)
  {
    hide Grid.Best, Grid.BestBefore;
    var t := front + [Pair(i - 1, j - 1)];
    assert g.InBand(i, j);
    assert prev[i, j - (g.center[i] - g.band)] == g.Direction(i, j);
    forall k | 1 <= k <= |t|
      ensures Linked(g, prev, t, k)
    {
      assert CellAfter(t, k - 1) == CellAfter(front, k - 1);
      if k < |t| {
        assert Linked(g, prev, front, k);
      }
    }
  }

  /** Follows the predecessor codes back from the far corner. Every read of `prev` is inside the
      band, and the loop stops exactly at the origin. */
  method Backtrack<F>(g: Grid<F>, prev: array2<int>) returns (pairs: seq<Pair>)
    requires g.Valid() && DirectionsDone(g, prev)
    requires g.Best(|g.a|, |g.b|).Fin?
    ensures pairs == g.Trace(|g.a|, |g.b|)
  {
    ghost var t := g.Trace(|g.a|, |g.b|);
    TraceIsLinked(g, prev, |g.a|, |g.b|);
    pairs := FollowCodes(g, prev, t);
  }

  lemma PushPair(pairs: seq<Pair>, t: seq<Pair>, k: nat)
    requires 1 <= k <= |t| && Reverse(pairs) == t[k..]
    ensures Reverse(pairs + [t[k - 1]]) == t[k - 1..]
  {
    assert (pairs + [t[k - 1]])[..|pairs|] == pairs;
  }

  /** The backtrack loop, against the chain of pairs `t` the codes are linked along. */
  method FollowCodes<F>(g: Grid<F>, prev: array2<int>, ghost t: seq<Pair>) returns (pairs: seq<Pair>)
    requires g.Valid() && prev.Length0 == |g.a| + 1 && prev.Length1 == g.Width()
    requires CellAfter(t, |t|) == Pair(|g.a|, |g.b|) && forall k :: 1 <= k <= |t| ==> Linked(g, prev, t, k)
    ensures pairs == t
  {
    hide Reverse;
    ghost var k := |t|;
    pairs := [];
    assert Reverse<Pair>([]) == [];
    var i: nat, j: nat := |g.a|, |g.b|;
    while i > 0 && j > 0
      invariant 0 <= k <= |t|
      invariant Pair(i, j) == CellAfter(t, k)
      invariant Reverse(pairs) == t[k..]
      decreases i + j
    {
      assert Linked(g, prev, t, k);
      PushPair(pairs, t, k);
      k := k - 1;
      pairs := pairs + [Pair(i - 1, j - 1)];
      var direction := prev[i, j - (g.center[i] - g.band)];
      if direction == 0 {
        i, j := i - 1, j - 1;
      } else if direction == 1 {
        i := i - 1;
      } else {
        j := j - 1;
      }
    }
    pairs := Reverse(pairs);
  }

  // ---------------------------------------------------------------- one banded pass

  const DTW_MAX_CELLS := 50_000_000

  datatype FailReason = EmptySequence | Unreachable | NoPath | OverCeiling(distance: real)

  /** `AlignmentTooLarge` is not an `AlignmentFailed`: a caller that catches the latter lets the
      former through. */
  datatype AlignError = AlignmentFailed(reason: FailReason) | AlignmentTooLarge

  /** The matched frames of both sides, in order, and the mean distance over them. */
  datatype WarpingPath = WarpingPath(index1: seq<nat>, index2: seq<nat>, normalizedDistance: real)

  function Firsts(p: seq<Pair>): (r: seq<nat>) {
    seq(|p|, k requires 0 <= k < |p| => p[k].i)
  }

  function Seconds(p: seq<Pair>): (r: seq<nat>) {
    seq(|p|, k requires 0 <= k < |p| => p[k].j)
  }

  /** Level 1's band centre: the literal diagonal. */
  function Diagonal(n: nat): seq<int> {
    seq(n + 1, i => i)
  }

  predicate TooManyCells(n: nat, band: nat) {
    (n + 1) * (2 * band + 1) > DTW_MAX_CELLS
  }

  /** What one pass returns or raises, in the order the checks are made. */
  function Outcome<F>(g: Grid<F>): (r: Result<WarpingPath, AlignError>)
    requires g.Valid()
    ensures r.Ok? ==> |r.value.index1| == |r.value.index2| > 0
  {
    var n, m := |g.a|, |g.b|;
    if n == 0 || m == 0 then Err(AlignmentFailed(EmptySequence))
    else if TooManyCells(n, g.band) then Err(AlignmentTooLarge)
    else if !(0 <= m - (g.center[n] - g.band) < g.Width()) then Err(AlignmentFailed(Unreachable))
    else match g.Best(n, m)
      case Inf => Err(AlignmentFailed(NoPath))
      case Fin(v) =>
        var p := g.Trace(n, m);
        Ok(WarpingPath(Firsts(p), Seconds(p), v / |p| as real))
  }

  method BandedDtw<F>(a: seq<F>, b: seq<F>, dist: (F, F) -> real, band: nat, fullCenter: Option<seq<int>>)
    returns (r: Result<WarpingPath, AlignError>)
    requires fullCenter.Some? ==> |fullCenter.value| == |a| + 1 && fullCenter.value[0] == 0
    ensures r == Outcome(Grid(a, b, dist, if fullCenter.Some? then fullCenter.value else Diagonal(|a|), band))
  {
    hide Grid.Best, Grid.Trace, Grid.Direction, Firsts, Seconds;
    var n, m := |a|, |b|;
    if n == 0 || m == 0 {
      return Err(AlignmentFailed(EmptySequence));
    }
    if (n + 1) * (2 * band + 1) > DTW_MAX_CELLS {
      return Err(AlignmentTooLarge);
    }
    var center := if fullCenter.Some? then fullCenter.value else Diagonal(n);
    var finalOffset := m - (center[n] - band);
    if !(0 <= finalOffset < 2 * band + 1) {
      return Err(AlignmentFailed(Unreachable));
    }
    var g := Grid(a, b, dist, center, band);
    var costs, prev := BandedDtwKernel(g);
    assert RowDone(g, costs, prev, n);
    var finalCost := costs[n, finalOffset];
    if finalCost.Inf? {
      return Err(AlignmentFailed(NoPath));
    }
    forall i, off | 0 <= i <= n && 0 <= off < g.Width()
      ensures prev[i, off] == StoredDirection(g, i, off)
    {
      assert RowDone(g, costs, prev, i);
    }
    var pairs := Backtrack(g, prev);
    TraceIsCheapest(g, n, m);
    return Ok(WarpingPath(Firsts(pairs), Seconds(pairs), finalCost.v / |pairs| as real));
  }
}
