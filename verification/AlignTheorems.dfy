/** What the alignment stage guarantees: when an attempt fails, what an accepted alignment is, and
    that a take sung exactly like the reference is aligned frame for frame. */
module AlignTheorems {
  import opened Basics
  import opened Dtw
  import opened DtwTheorems
  import opened TimeMaps
  import opened Align

  // ---------------------------------------------------------------- when an attempt fails

  /** Both sides of a warping path only move forward. */
  lemma {:induction false} WarpMovesForward(p: seq<Pair>, x: nat, y: nat)
    requires IsWarp(p) && x <= y < |p|
    ensures p[x].i <= p[y].i && p[x].j <= p[y].j
  {
    if x < y {
      WarpMovesForward(p, x, y - 1);
      assert Step(p[y - 1], p[y]);
    }
  }

  lemma AlignmentIsMonotone(w: WarpingPath, n: nat, m: nat)
    requires IsAlignment(w, n, m)
    ensures forall x, y :: 0 <= x <= y < |w.index1| ==> w.index1[x] <= w.index1[y]
    ensures forall x, y :: 0 <= x <= y < |w.index2| ==> w.index2[x] <= w.index2[y]
  {
    forall x, y | 0 <= x <= y < |w.index1|
      ensures w.index1[x] <= w.index1[y] && w.index2[x] <= w.index2[y]
    {
      WarpMovesForward(PairsOf(w), x, y);
    }
  }

  lemma GuardRejects<F>(g: Grid<F>)
    requires g.Valid() && |g.a| > 0 && |g.b| > 0 && TooManyCells(|g.a|, g.band)
    ensures Outcome(g) == Err(AlignmentTooLarge)
  {
  }

  /** After cropping, the coarse pass fails on non-empty inputs only by the size guard. */
  lemma CoarsePassSucceeds<F>(user: seq<F>, reference: seq<F>, dist: (F, F) -> real, lv: Levels)
    requires lv.stride >= 1 && user != [] && reference != []
    ensures var g := CoarseGrid(user, reference, dist, lv);
            && |g.a| > 0 && |g.b| > 0
            && (if TooManyCells(|g.a|, g.band) then Outcome(g) == Err(AlignmentTooLarge) else Outcome(g).Ok?)
  {
    hide Outcome;
    var g := CoarseGrid(user, reference, dist, lv);
    if TooManyCells(|g.a|, g.band) {
      GuardRejects(g);
    } else {
      DiagonalFailsExactly(g);
    }
  }

  /** The refined band tears somewhere: a step too steep for it to follow. */
  ghost predicate TornCenter<F>(g: Grid<F>)
    requires g.Valid()
  {
    exists i :: 1 <= i <= |g.a| && Tears(g.center, g.band, i)
  }

  /** The coarse hop: `stride` pitch frames. */
  function CoarseHop(lv: Levels): real {
    lv.stride as real * PITCH_HOP_SECONDS
  }

  lemma FineSides<F>(user: seq<F>, reference: seq<F>, dist: (F, F) -> real, lv: Levels, coarse: WarpingPath)
    requires lv.stride >= 1 && user != [] && reference != [] && |coarse.index1| == |coarse.index2| > 0
    ensures var g := FineGrid(user, reference, dist, lv, coarse);
            && |g.a| > 0 && |g.b| > 0
            && g.center == RefinedCenter(ProjectedTimes(coarse, CoarseHop(lv), PITCH_HOP_SECONDS, |g.a|),
                                         PITCH_HOP_SECONDS, |g.b|)
  {
    hide ProjectedTimes, RefinedCenter, Outcome, CoarseGrid, Mismatched, Strided;
    CoarseSides(user, reference, dist, lv);
    var c := CoarseGrid(user, reference, dist, lv);
    KeepsSome(Min(|c.a|, |c.b|), lv.stride);
  }

  lemma CoarseSides<F>(user: seq<F>, reference: seq<F>, dist: (F, F) -> real, lv: Levels)
    requires lv.stride >= 1 && user != [] && reference != []
    ensures var c := CoarseGrid(user, reference, dist, lv);
            |c.a| > 0 && |c.b| > 0
  {
    hide Outcome;
  }

  lemma KeepsSome(frames: int, stride: nat)
    requires frames >= 1 && stride >= 1
    ensures frames * stride >= 1
  {
  }

  lemma AcceptedPathIsMonotone<F>(g: Grid<F>, w: WarpingPath)
    requires g.Valid() && Outcome(g) == Ok(w)
    ensures forall x, y :: 0 <= x <= y < |w.index1| ==> w.index1[x] <= w.index1[y]
    ensures forall x, y :: 0 <= x <= y < |w.index2| ==> w.index2[x] <= w.index2[y]
  {
    hide Outcome;
    AcceptedPathIsCheapest(g);
    AlignmentIsMonotone(w, |g.a|, |g.b|);
  }

  lemma FineCenterIsStaircase<F>(user: seq<F>, reference: seq<F>, dist: (F, F) -> real, lv: Levels, coarse: WarpingPath)
    requires lv.stride >= 1 && user != [] && reference != []
    requires Outcome(CoarseGrid(user, reference, dist, lv)) == Ok(coarse)
    ensures var g := FineGrid(user, reference, dist, lv, coarse);
            |g.a| > 0 && |g.b| > 0 && Staircase(g.center, |g.a|, |g.b|)
  {
    hide Outcome, FineGrid, CoarseGrid, ProjectedTimes, RefinedCenter, Staircase;
    AcceptedPathIsMonotone(CoarseGrid(user, reference, dist, lv), coarse);
    FineSides(user, reference, dist, lv, coarse);
    var g := FineGrid(user, reference, dist, lv, coarse);
    RefinedCenterIsStaircase(coarse, CoarseHop(lv), PITCH_HOP_SECONDS, |g.a|, |g.b|);
  }

  /** Exactly when an attempt fails. An empty side fails it; otherwise the coarse pass and the
      corner checks never do, and past the two size guards it fails iff the centre projected from
      the coarse path tears the refined band. */
  lemma AttemptFailsExactly<F>(user: seq<F>, reference: seq<F>, dist: (F, F) -> real, lv: Levels)
    requires lv.stride >= 1 && lv.refineBand >= 1
    ensures var r, c := AttemptOutcome(user, reference, dist, lv), CoarseGrid(user, reference, dist, lv);
            if user == [] || reference == [] then r == Err(AlignmentFailed(EmptySequence))
            else if TooManyCells(|c.a|, c.band) then r == Err(AlignmentTooLarge)
            else
              && Outcome(c).Ok?
              && var g := FineGrid(user, reference, dist, lv, Outcome(c).value);
                 if TooManyCells(|g.a|, g.band) then r == Err(AlignmentTooLarge)
                 else if TornCenter(g) then r == Err(AlignmentFailed(NoPath))
                 else r.Ok?
  {
    var c := CoarseGrid(user, reference, dist, lv);
    if user == [] || reference == [] {
      EmptyIsRejected(c);
    } else {
      hide Outcome;
      CoarsePassSucceeds(user, reference, dist, lv);
      if Outcome(c).Ok? {
        var g := FineGrid(user, reference, dist, lv, Outcome(c).value);
        FineCenterIsStaircase(user, reference, dist, lv, Outcome(c).value);
        if TooManyCells(|g.a|, g.band) {
          GuardRejects(g);
        } else {
          StaircaseFailsExactly(g);
        }
      }
    }
  }

  lemma EmptyIsRejected<F>(g: Grid<F>)
    requires g.Valid() && (|g.a| == 0 || |g.b| == 0)
    ensures Outcome(g) == Err(AlignmentFailed(EmptySequence))
  {
  }

  // ---------------------------------------------------------------- a perfect take

  function Identity(n: nat): (s: seq<nat>)
    ensures |s| == n
  {
    seq(n, k requires k >= 0 => k)
  }

  /** The frame-for-frame alignment of `n` frames at cost 0. */
  function IdentityPath(n: nat): WarpingPath {
    WarpingPath(Identity(n), Identity(n), 0.0)
  }

  ghost predicate DiagonalInBand<F>(g: Grid<F>)
    requires g.Valid()
  {
    |g.a| == |g.b| && forall k :: 1 <= k <= |g.a| ==> Gap(g.center[k], k) <= g.band
  }

  lemma DiagonalTraceOutcome<F>(g: Grid<F>)
    requires g.Valid() && |g.a| > 0 && !TooManyCells(|g.a|, g.band) && DiagonalInBand(g)
    requires var n := |g.a|; g.Best(n, n) == Fin(0.0) && g.Trace(n, n) == DiagonalPairs(n)
    ensures Outcome(g) == Ok(IdentityPath(|g.a|))
  {
    hide DiagonalPairs, Grid.Best, Grid.Trace, Firsts, Seconds, TooManyCells;
    var n := |g.a|;
    assert Gap(g.center[n], n) <= g.band;
    DiagonalSides(n);
  }

  lemma DiagonalSides(n: nat)
    ensures |DiagonalPairs(n)| == n
    ensures Firsts(DiagonalPairs(n)) == Identity(n) && Seconds(DiagonalPairs(n)) == Identity(n)
  {
    assert Firsts(DiagonalPairs(n)) == Identity(n) && Seconds(DiagonalPairs(n)) == Identity(n);
  }

  /** Identical sides whose diagonal stays inside the band align frame for frame at cost 0. */
  lemma SelfAlignment<F(!new)>(g: Grid<F>)
    requires g.Valid() && g.a == g.b && g.a != [] && IsDistance(g.dist) && !TooManyCells(|g.a|, g.band)
    requires DiagonalInBand(g)
    ensures Outcome(g) == Ok(IdentityPath(|g.a|))
  {
    hide Outcome;
    forall k | 0 <= k < |g.a|
      ensures FreeDiagonal(g, k)
    {
      assert Gap(g.center[k + 1], k + 1) <= g.band;
    }
    ZeroDiagonal(g, |g.a|);
    DiagonalTraceOutcome(g);
  }

  lemma {:induction false} StridedLength<F>(s: seq<F>, stride: nat)
    requires stride >= 1
    ensures |s| <= stride * |Strided(s, stride)| < |s| + stride
  {
    if s != [] {
      var rest := s[Min(stride, |s|)..];
      var c := |Strided(rest, stride)|;
      StridedLength(rest, stride);
      TimesOneMore(stride, c);
      assert |Strided(s, stride)| == c + 1;
      assert rest == [] ==> c == 0;
    }
  }

  lemma TimesOneMore(x: nat, y: nat)
    ensures x * (y + 1) == x * y + x
  {
  }

  lemma TimeOrder(i: nat, j: nat, hop: real)
    requires hop > 0.0
    ensures i <= j <==> TimeOf(i, hop) <= TimeOf(j, hop)
  {
    if i <= j {
      ScaleMonotone(hop, i as real, j as real);
    } else {
      assert TimeOf(i, hop) - TimeOf(j, hop) == (i - j) as real * hop > 0.0;
    }
  }

  /** Through an identity coarse path a fine frame projects to itself, up to the last coarse frame. */
  lemma IdentityProjection(coarseFrames: nat, stride: nat, hop: real, n: nat, i: nat)
    requires coarseFrames >= 1 && stride >= 1 && hop > 0.0 && i < n
    ensures var ts := ProjectedTimes(IdentityPath(coarseFrames), stride as real * hop, hop, n);
            FrameAt(ts[i], hop) == Min(i, stride * (coarseFrames - 1))
  {
    hide Interp, TimeOf;
    var coarseHop := stride as real * hop;
    var xp := Times(Identity(coarseFrames), coarseHop);
    var last := stride * (coarseFrames - 1);
    SortedTimes(Identity(coarseFrames), coarseHop);
    StrideTime(coarseFrames - 1, stride, hop);
    StrideTime(0, stride, hop);
    TimeOrder(0, i, hop);
    TimeOrder(i, last, hop);
    InterpIdentity(TimeOf(i, hop), xp);
    FrameAtExact(Min(i, last), hop);
  }

  /** The refined centre of an identity coarse path stays within one stride of the diagonal. */
  lemma IdentityCenterNearDiagonal(coarseFrames: nat, stride: nat, hop: real, n: nat, k: nat)
    requires stride >= 1 && hop > 0.0 && 1 <= k <= n && n <= stride * coarseFrames < n + stride
    ensures coarseFrames >= 1
    ensures var ts := ProjectedTimes(IdentityPath(coarseFrames), stride as real * hop, hop, n);
            Gap(CenterAt(ts, hop, n, k), k) <= stride
  {
    hide ProjectedTimes, FrameAt;
    var ts := ProjectedTimes(IdentityPath(coarseFrames), stride as real * hop, hop, n);
    var last := stride * (coarseFrames - 1);
    assert last >= n - stride;
    IdentityProjection(coarseFrames, stride, hop, n, n - 1);
    IdentityProjection(coarseFrames, stride, hop, n, k - 1);
    assert Unspread(ts, hop, n, k) == Min(k - 1, last);
    var endGap: nat := n - Unspread(ts, hop, n, n);
    assert endGap <= stride;
    DriftMonotone(endGap, 0, k, n);
    DriftMonotone(endGap, k, n, n);
    DriftEnds(endGap, n);
  }

  lemma SelfCoarseGrid<F>(take: seq<F>, dist: (F, F) -> real, lv: Levels)
    requires lv.stride >= 1
    ensures var small := Strided(take, lv.stride);
            CoarseGrid(take, take, dist, lv) == Grid(small, small, dist, Diagonal(|small|), lv.coarseBand)
    ensures !Mismatched(take, take, lv)
  {
  }

  lemma SelfFineGrid<F>(take: seq<F>, dist: (F, F) -> real, lv: Levels)
    requires take != [] && 1 <= lv.stride <= lv.refineBand
    ensures |Strided(take, lv.stride)| >= 1
    ensures var g := FineGrid(take, take, dist, lv, IdentityPath(|Strided(take, lv.stride)|));
            g.a == g.b == take && g.dist == dist && g.band == lv.refineBand && DiagonalInBand(g)
  {
    hide Outcome, ProjectedTimes, CenterAt, Strided;
    var n, frames := |take|, |Strided(take, lv.stride)|;
    var g := FineGrid(take, take, dist, lv, IdentityPath(frames));
    SelfCoarseGrid(take, dist, lv);
    StridedLength(take, lv.stride);
    forall k | 1 <= k <= n
      ensures Gap(g.center[k], k) <= g.band
    {
      IdentityCenterNearDiagonal(frames, lv.stride, PITCH_HOP_SECONDS, n, k);
    }
  }

  /** Self-alignment through both levels: aligning any non-empty curve with itself yields exactly
      the diagonal at cost 0, with no length mismatch, whenever the size guards pass and the refined
      band is at least one stride wide. */
  lemma PerfectAttempt<F(!new)>(take: seq<F>, dist: (F, F) -> real, lv: Levels)
    requires take != [] && IsDistance(dist) && 1 <= lv.stride <= lv.refineBand
    requires !TooManyCells(|Strided(take, lv.stride)|, lv.coarseBand) && !TooManyCells(|take|, lv.refineBand)
    ensures AttemptOutcome(take, take, dist, lv)
            == Ok(Attempt(IdentityPath(|take|), IdentityPath(|Strided(take, lv.stride)|), false))
  {
    hide Outcome, FineGrid, CoarseGrid, Mismatched, Strided;
    SelfCoarseGrid(take, dist, lv);
    SelfFineGrid(take, dist, lv);
    SelfAlignment(CoarseGrid(take, take, dist, lv));
    SelfAlignment(FineGrid(take, take, dist, lv, IdentityPath(|Strided(take, lv.stride)|)));
  }

  // ---------------------------------------------------------------- what the stage accepts

  /** Candidate `offset` passes verification. */
  predicate Acceptable(attempts: nat -> Result<Attempt, AlignError>, scores: seq<Cost>, offset: nat)
    requires offset < |scores|
  {
    && offset != 0 && scores[offset].Fin? && attempts(offset).Ok?
    && attempts(offset).value.fine.normalizedDistance <= ALIGN_PITCH_MAX_NORMALIZED_DISTANCE
  }

  /** The search returns the first acceptable candidate in argsort order; when it returns none it
      re-raises the original failure, unless a candidate before it was too large to try. */
  lemma {:induction false} SearchTakesFirstAcceptable(attempts: nat -> Result<Attempt, AlignError>, scores: seq<Cost>,
                                                      candidates: seq<nat>, original: AlignError)
    requires forall k :: 0 <= k < |candidates| ==> candidates[k] < |scores|
    ensures match SearchOutcome(attempts, scores, candidates, original)
            case Ok((offset, attempt)) =>
              attempts(offset) == Ok(attempt)
              && (exists c :: 0 <= c < |candidates| && candidates[c] == offset && Acceptable(attempts, scores, offset)
                              && forall k :: 0 <= k < c ==> !Acceptable(attempts, scores, candidates[k]))
            case Err(e) =>
              if e == original then
                original == AlignmentTooLarge
                || forall k :: 0 <= k < |candidates| ==> !Acceptable(attempts, scores, candidates[k])
              else
                && e == AlignmentTooLarge
                && exists k :: 0 <= k < |candidates| && attempts(candidates[k]) == Err(AlignmentTooLarge)
  {
    if candidates != [] {
      var rest := candidates[1..];
      SearchTakesFirstAcceptable(attempts, scores, rest, original);
      assert forall k :: 0 < k < |candidates| ==> candidates[k] == rest[k - 1];
      if SearchOutcome(attempts, scores, candidates, original) == SearchOutcome(attempts, scores, rest, original) {
        match SearchOutcome(attempts, scores, rest, original)
        case Ok((offset, _)) =>
          if !Acceptable(attempts, scores, candidates[0]) {
            var c :| 0 <= c < |rest| && rest[c] == offset && Acceptable(attempts, scores, offset)
                     && forall k :: 0 <= k < c ==> !Acceptable(attempts, scores, rest[k]);
            assert candidates[c + 1] == offset;
          } else {
            assert candidates[0] == offset;
          }
        case Err(e) =>
          if e != original {
            var k :| 0 <= k < |rest| && attempts(rest[k]) == Err(AlignmentTooLarge);
            assert candidates[k + 1] == rest[k];
          }
      }
    }
  }

  /** Every accepted alignment is within the ceiling and is what an attempt at its own offset
      returns; a positive offset is accepted only after the direct attempt failed. */
  lemma AcceptedWithinCeiling<F>(user: seq<F>, reference: seq<F>, dist: (F, F) -> real, lv: Levels, order: seq<nat>)
    requires lv.stride >= 1
    requires MaxOffset(reference) >= 1 ==> |order| == MaxOffset(reference) + 1
    requires forall k :: 0 <= k < |order| ==> order[k] <= MaxOffset(reference)
    ensures StageOutcome(user, reference, dist, lv, order).Ok? ==>
            var (offset, attempt) := StageOutcome(user, reference, dist, lv, order).value;
            && attempt.fine.normalizedDistance <= ALIGN_PITCH_MAX_NORMALIZED_DISTANCE
            && AttemptOutcome(user, Skip(reference, offset), dist, lv) == Ok(attempt)
            && (offset > 0 ==> offset <= MaxOffset(reference)
                               && Judge(AttemptOutcome(user, reference, dist, lv)).Err?)
  {
    hide AttemptOutcome, OffsetScore;
    assert Skip(reference, 0) == reference;
    if MaxOffset(reference) >= 1 && Judge(AttemptOutcome(user, reference, dist, lv)).Err? {
      SearchTakesFirstAcceptable(Attempts(user, reference, dist, lv),
                                 OffsetScores(user, reference, dist, MaxOffset(reference)),
                                 Take(order, ALIGN_START_OFFSET_CANDIDATE_COUNT),
                                 Judge(AttemptOutcome(user, reference, dist, lv)).error);
    }
  }

  /** How much of the take the coarse pass keeps, from the two strided lengths. */
  function CoarseLength(n: nat, m: nat, band: nat): nat {
    if n > m + band then m else n
  }

  /** How much of the take the refined pass keeps. */
  function FineLength(frames: nat, n: nat, m: nat, lv: Levels): nat {
    if n > m + lv.coarseBand then Min(frames, m * lv.stride) else frames
  }

  lemma CoarseKeeps<F>(user: seq<F>, reference: seq<F>, dist: (F, F) -> real, lv: Levels)
    requires lv.stride >= 1
    ensures |CoarseGrid(user, reference, dist, lv).a|
            == CoarseLength(|Strided(user, lv.stride)|, |Strided(reference, lv.stride)|, lv.coarseBand)
    ensures CoarseGrid(user, reference, dist, lv).band == lv.coarseBand
  {
    hide Outcome;
  }

  lemma FineKeeps<F>(user: seq<F>, reference: seq<F>, dist: (F, F) -> real, lv: Levels, coarse: WarpingPath)
    requires lv.stride >= 1 && |coarse.index1| == |coarse.index2| > 0
    ensures var g := FineGrid(user, reference, dist, lv, coarse);
            && g.band == lv.refineBand
            && |g.a| == FineLength(|user|, |Strided(user, lv.stride)|, |Strided(reference, lv.stride)|, lv)
  {
    hide ProjectedTimes, RefinedCenter;
    StridedLength(user, lv.stride);
    var n, m := |Strided(user, lv.stride)|, |Strided(reference, lv.stride)|;
    hide Strided;
    if m > n { assert lv.stride * n == n * lv.stride; }
  }

  lemma StridedMonotone<F>(s: seq<F>, t: seq<F>, stride: nat)
    requires stride >= 1 && |s| <= |t|
    ensures |Strided(s, stride)| <= |Strided(t, stride)|
  {
    StridedLength(s, stride);
    StridedLength(t, stride);
    FewerSteps(|Strided(s, stride)|, |Strided(t, stride)|, |t|, stride);
  }

  lemma FewerSteps(x: nat, y: nat, total: nat, stride: nat)
    requires stride >= 1 && stride * x < total + stride && total <= stride * y
    ensures x <= y
  {
    if y + 1 <= x { TimesMonotone(stride, y + 1, x); }
  }

  lemma TimesMonotone(c: nat, x: nat, y: nat)
    requires x <= y
    ensures c * x <= c * y
  {
  }

  lemma FewerCells(n: nat, m: nat, band: nat)
    requires n <= m && TooManyCells(n, band)
    ensures TooManyCells(m, band)
  {
    assert (m + 1) * (2 * band + 1) >= (n + 1) * (2 * band + 1);
  }

  lemma SmallerCutKeepsLess(frames: nat, n: nat, m: nat, cut: nat, lv: Levels)
    requires cut <= m
    ensures CoarseLength(n, cut, lv.coarseBand) <= CoarseLength(n, m, lv.coarseBand)
    ensures FineLength(frames, n, cut, lv) <= FineLength(frames, n, m, lv)
  {
    assert cut * lv.stride <= m * lv.stride;
  }

  /** When an attempt is too large is decided by the lengths alone: by the two size guards. */
  lemma TooLargeExactly<F>(user: seq<F>, reference: seq<F>, dist: (F, F) -> real, lv: Levels)
    requires lv.stride >= 1 && lv.refineBand >= 1
    ensures var n, m := |Strided(user, lv.stride)|, |Strided(reference, lv.stride)|;
            AttemptOutcome(user, reference, dist, lv) == Err(AlignmentTooLarge)
            <==> user != [] && reference != []
                 && (TooManyCells(CoarseLength(n, m, lv.coarseBand), lv.coarseBand)
                     || TooManyCells(FineLength(|user|, n, m, lv), lv.refineBand))
  {
    hide Outcome, AttemptOutcome, CoarseGrid, FineGrid, Strided, TooManyCells, CoarseLength, FineLength, TornCenter;
    AttemptFailsExactly(user, reference, dist, lv);
    var c := CoarseGrid(user, reference, dist, lv);
    CoarseKeeps(user, reference, dist, lv);
    if user != [] && reference != [] && !TooManyCells(|c.a|, c.band) {
      CoarseIndices(c);
      FineKeeps(user, reference, dist, lv, Outcome(c).value);
    }
  }

  lemma CoarseIndices<F>(g: Grid<F>)
    requires g.Valid() && Outcome(g).Ok?
    ensures |Outcome(g).value.index1| == |Outcome(g).value.index2| > 0
  {
    hide Outcome;
    AcceptedPathIsCheapest(g);
  }

  /** Cutting the reference never makes an attempt too large. */
  lemma NoCandidateTooLarge<F>(user: seq<F>, reference: seq<F>, cut: seq<F>, dist: (F, F) -> real, lv: Levels)
    requires lv.stride >= 1 && lv.refineBand >= 1 && |cut| <= |reference|
    requires AttemptOutcome(user, reference, dist, lv) != Err(AlignmentTooLarge)
    ensures AttemptOutcome(user, cut, dist, lv) != Err(AlignmentTooLarge)
  {
    hide AttemptOutcome, TooManyCells, CoarseLength, FineLength;
    TooLargeExactly(user, reference, dist, lv);
    TooLargeExactly(user, cut, dist, lv);
    StridedMonotone(cut, reference, lv.stride);
    var n, m, k := |Strided(user, lv.stride)|, |Strided(reference, lv.stride)|, |Strided(cut, lv.stride)|;
    hide Strided;
    SmallerCutKeepsLess(|user|, n, m, k, lv);
    if TooManyCells(CoarseLength(n, k, lv.coarseBand), lv.coarseBand) {
      FewerCells(CoarseLength(n, k, lv.coarseBand), CoarseLength(n, m, lv.coarseBand), lv.coarseBand);
    }
    if TooManyCells(FineLength(|user|, n, k, lv), lv.refineBand) {
      FewerCells(FineLength(|user|, n, k, lv), FineLength(|user|, n, m, lv), lv.refineBand);
    }
  }

  /** A failed search re-raises the original error: whatever a rejected take raises is the direct
      attempt's own failure. */
  lemma RejectionIsTheOriginal<F>(user: seq<F>, reference: seq<F>, dist: (F, F) -> real, lv: Levels, order: seq<nat>)
    requires lv.stride >= 1 && lv.refineBand >= 1
    requires MaxOffset(reference) >= 1 ==> |order| == MaxOffset(reference) + 1
    requires forall k :: 0 <= k < |order| ==> order[k] <= MaxOffset(reference)
    ensures var direct := Judge(AttemptOutcome(user, reference, dist, lv));
            StageOutcome(user, reference, dist, lv, order).Err? ==>
              direct.Err? && StageOutcome(user, reference, dist, lv, order).error == direct.error
  {
    hide AttemptOutcome, OffsetScore;
    var direct := Judge(AttemptOutcome(user, reference, dist, lv));
    if MaxOffset(reference) >= 1 && direct.Err? && direct.error != AlignmentTooLarge {
      var candidates := Take(order, ALIGN_START_OFFSET_CANDIDATE_COUNT);
      SearchTakesFirstAcceptable(Attempts(user, reference, dist, lv),
                                 OffsetScores(user, reference, dist, MaxOffset(reference)), candidates, direct.error);
      forall k | 0 <= k < |candidates|
        ensures Attempts(user, reference, dist, lv)(candidates[k]) != Err(AlignmentTooLarge)
      {
        NoCandidateTooLarge(user, reference, Skip(reference, candidates[k]), dist, lv);
      }
    }
  }

  /** A take identical to its reference is accepted at offset 0, frame for frame. */
  lemma PerfectTakeAccepted<F(!new)>(take: seq<F>, dist: (F, F) -> real, lv: Levels, order: seq<nat>)
    requires take != [] && IsDistance(dist) && 1 <= lv.stride <= lv.refineBand
    requires !TooManyCells(|Strided(take, lv.stride)|, lv.coarseBand) && !TooManyCells(|take|, lv.refineBand)
    requires MaxOffset(take) >= 1 ==> |order| == MaxOffset(take) + 1
    requires forall k :: 0 <= k < |order| ==> order[k] <= MaxOffset(take)
    ensures StageOutcome(take, take, dist, lv, order)
            == Ok((0, Attempt(IdentityPath(|take|), IdentityPath(|Strided(take, lv.stride)|), false)))
  {
    hide AttemptOutcome;
    PerfectAttempt(take, dist, lv);
  }

  // ---------------------------------------------------------------- recovering an intro

  lemma {:induction false} UnwarpedTotalNonNegative<F(!new)>(a: seq<F>, b: seq<F>, dist: (F, F) -> real,
                                                             k: nat, count: nat)
    requires count <= |a| && k + count <= |b| && IsDistance(dist)
    ensures UnwarpedTotal(a, b, dist, k, count) >= 0.0
    ensures b[k..k + count] == a[..count] ==> UnwarpedTotal(a, b, dist, k, count) == 0.0
  {
    if count > 0 {
      UnwarpedTotalNonNegative(a, b, dist, k, count - 1);
      if b[k..k + count] == a[..count] {
        assert b[k + count - 1] == b[k..k + count][count - 1] == a[count - 1];
        assert b[k..k + count - 1] == b[k..k + count][..count - 1] == a[..count - 1];
      }
    }
  }

  lemma OffsetScoreNonNegative<F(!new)>(a: seq<F>, b: seq<F>, dist: (F, F) -> real, k: nat)
    requires IsDistance(dist)
    ensures OffsetScore(a, b, dist, k).Fin? ==> OffsetScore(a, b, dist, k).v >= 0.0
    ensures a != [] && k + |a| <= |b| && b[k..k + |a|] == a ==> OffsetScore(a, b, dist, k) == Fin(0.0)
  {
    var count := Min(|a|, |b| - k);
    if count > 0 {
      UnwarpedTotalNonNegative(a, b, dist, k, count);
      DivideExact(UnwarpedTotal(a, b, dist, k, count), count as real);
      assert a[..|a|] == a;
    }
  }

  /** The only positive zero-scoring offset comes first in any argsort order, or right behind offset 0. */
  lemma ZeroScoreComesFirst(scores: seq<Cost>, order: seq<nat>, offset: nat)
    requires IsArgsort(scores, order) && 0 < offset < |scores| && scores[offset] == Fin(0.0)
    requires forall k :: 0 <= k < |scores| ==> (scores[k].Fin? ==> scores[k].v >= 0.0)
    requires forall k :: 0 < k < |scores| && k != offset ==> scores[k] != Fin(0.0)
    ensures |order| >= 2 && (order[0] == offset || (order[0] == 0 && order[1] == offset))
  {
    assert offset in order;
    var at :| 0 <= at < |order| && order[at] == offset;
    forall i | 0 <= i < at ensures order[i] == 0 {
      assert AtMost(scores[order[i]], scores[order[at]]);
    }
    assert order[0] == 0 || at == 0;
    assert order[1] == 0 || at <= 1;
  }

  /** The intro's length scores zero, and no offset scores below zero. */
  lemma IntroScores<F(!new)>(intro: seq<F>, take: seq<F>, dist: (F, F) -> real, maxOffset: nat)
    requires take != [] && IsDistance(dist) && |intro| <= maxOffset
    ensures var scores := OffsetScores(take, intro + take, dist, maxOffset);
            scores[|intro|] == Fin(0.0) && forall k :: 0 <= k < |scores| ==> (scores[k].Fin? ==> scores[k].v >= 0.0)
  {
    hide OffsetScore;
    var reference := intro + take;
    assert reference[|intro|..|intro| + |take|] == take;
    OffsetScoreNonNegative(take, reference, dist, |intro|);
    forall k: nat
      ensures OffsetScore(take, reference, dist, k).Fin? ==> OffsetScore(take, reference, dist, k).v >= 0.0
    {
      OffsetScoreNonNegative(take, reference, dist, k);
    }
  }

  /** The search over a candidate list that starts with `offset`, or with offset 0 and then `offset`, takes an
      acceptable `offset`: offset 0 is never a candidate. */
  lemma SearchSkipsZero(attempts: nat -> Result<Attempt, AlignError>, scores: seq<Cost>, candidates: seq<nat>,
                        original: AlignError, offset: nat)
    requires forall k :: 0 <= k < |candidates| ==> candidates[k] < |scores|
    requires |candidates| >= 2 && (candidates[0] == offset || (candidates[0] == 0 && candidates[1] == offset))
    requires offset < |scores| && Acceptable(attempts, scores, offset)
    ensures SearchOutcome(attempts, scores, candidates, original) == Ok((offset, attempts(offset).value))
  {
    assert candidates[0] == 0 ==> candidates[1..][0] == offset;
  }

  /** Intro recovery: when the reference is an intro followed by the take, the intro's length is in
      the search range and no other positive offset scores zero, and the direct attempt failed, the search
      returns exactly the intro's length with the frame-for-frame alignment, whatever order argsort
      gives equal scores. */
  lemma IntroIsRecovered<F(!new)>(intro: seq<F>, take: seq<F>, dist: (F, F) -> real, lv: Levels, order: seq<nat>)
    requires take != [] && IsDistance(dist) && 1 <= lv.stride <= lv.refineBand
    requires !TooManyCells(|Strided(take, lv.stride)|, lv.coarseBand) && !TooManyCells(|take|, lv.refineBand)
    requires 1 <= |intro| <= MaxOffset(intro + take)
    requires forall k :: 0 < k <= MaxOffset(intro + take) && k != |intro| ==>
                           OffsetScore(take, intro + take, dist, k) != Fin(0.0)
    requires IsArgsort(OffsetScores(take, intro + take, dist, MaxOffset(intro + take)), order)
    ensures var direct := Judge(AttemptOutcome(take, intro + take, dist, lv));
            direct.Err? && direct.error.AlignmentFailed? ==>
            StageOutcome(take, intro + take, dist, lv, order)
            == Ok((|intro|, Attempt(IdentityPath(|take|), IdentityPath(|Strided(take, lv.stride)|), false)))
  {
    hide AttemptOutcome, OffsetScore, MaxOffset, SearchOutcome;
    var reference := intro + take;
    var scores := OffsetScores(take, reference, dist, MaxOffset(reference));
    var direct := Judge(AttemptOutcome(take, reference, dist, lv));
    IntroScores(intro, take, dist, MaxOffset(reference));
    ZeroScoreComesFirst(scores, order, |intro|);
    assert Skip(reference, |intro|) == take;
    PerfectAttempt(take, dist, lv);
    var candidates := Take(order, ALIGN_START_OFFSET_CANDIDATE_COUNT);
    if direct.Err? {
      SearchSkipsZero(Attempts(take, reference, dist, lv), scores, candidates, direct.error, |intro|);
    }
  }

  // ---------------------------------------------------------------- a take far from its reference

  /** The cost of an accepted path is a mean of distances between frames of the two sides. */
  lemma FineCostAtLeast<F(!new)>(user: seq<F>, reference: seq<F>, dist: (F, F) -> real, lv: Levels, lo: real)
    requires lv.stride >= 1 && AttemptOutcome(user, reference, dist, lv).Ok?
    requires forall x, y :: x in user && y in reference ==> dist(x, y) >= lo
    ensures AttemptOutcome(user, reference, dist, lv).value.fine.normalizedDistance >= lo
  {
    hide Outcome, ProjectedTimes, RefinedCenter, IsCheapestAlignment;
    var c := CoarseGrid(user, reference, dist, lv);
    CoarseIndices(c);
    var g := FineGrid(user, reference, dist, lv, Outcome(c).value);
    FineIsCut(user, reference, dist, lv, Outcome(c).value);
    AcceptedPathIsCheapest(g);
    CheapestIsMean(g, Outcome(g).value);
    MeanAtLeastPairs(g, Outcome(g).value, lo);
  }

  lemma FineIsCut<F(!new)>(user: seq<F>, reference: seq<F>, dist: (F, F) -> real, lv: Levels, coarse: WarpingPath)
    requires lv.stride >= 1 && |coarse.index1| == |coarse.index2| > 0
    ensures var g := FineGrid(user, reference, dist, lv, coarse);
            && g.dist == dist && g.a <= user && g.b <= reference
            && (forall x :: x in g.a ==> x in user) && (forall y :: y in g.b ==> y in reference)
  {
    hide ProjectedTimes, RefinedCenter, CoarseGrid;
  }

  lemma MeanAtLeastPairs<F(!new)>(g: Grid<F>, w: WarpingPath, lo: real)
    requires IsMean(g, w)
    requires forall x, y :: x in g.a && y in g.b ==> g.dist(x, y) >= lo
    ensures w.normalizedDistance >= lo
  {
    SumAtLeast(g, PairsOf(w), lo);
    MeanAtLeast(g.Sum(PairsOf(w)), |w.index1|, w.normalizedDistance, lo);
  }

  lemma {:induction false} SumAtLeast<F(!new)>(g: Grid<F>, p: seq<Pair>, lo: real)
    requires forall k :: 0 <= k < |p| ==> p[k].i < |g.a| && p[k].j < |g.b|
    requires forall x, y :: x in g.a && y in g.b ==> g.dist(x, y) >= lo
    ensures g.Sum(p) >= lo * |p| as real
  {
    if p != [] {
      SumAtLeast(g, p[..|p| - 1], lo);
      assert lo * |p| as real == lo * (|p| - 1) as real + lo;
    }
  }

  lemma MeanAtLeast(total: real, count: nat, mean: real, lo: real)
    requires count > 0 && mean * count as real == total && lo * count as real <= total
    ensures lo <= mean
  {
    DivideBoth(lo * count as real, total, count as real);
  }

  /** A take every frame of which is further than the ceiling from every frame of the reference is rejected,
      directly and at every start offset. */
  lemma FarTakeIsRejected<F(!new)>(user: seq<F>, reference: seq<F>, dist: (F, F) -> real, lv: Levels, order: seq<nat>,
                             lo: real)
    requires lv.stride >= 1 && lo > ALIGN_PITCH_MAX_NORMALIZED_DISTANCE
    requires MaxOffset(reference) >= 1 ==> |order| == MaxOffset(reference) + 1
    requires forall k :: 0 <= k < |order| ==> order[k] <= MaxOffset(reference)
    requires forall x, y :: x in user && y in reference ==> dist(x, y) >= lo
    ensures StageOutcome(user, reference, dist, lv, order).Err?
  {
    hide StageOutcome, AttemptOutcome;
    if StageOutcome(user, reference, dist, lv, order).Ok? {
      AcceptedWithinCeiling(user, reference, dist, lv, order);
      var offset := StageOutcome(user, reference, dist, lv, order).value.0;
      FineCostAtLeast(user, Skip(reference, offset), dist, lv, lo);
      assert false;
    }
  }
}
