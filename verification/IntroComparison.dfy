/** What the pitch comparison reads after a start-offset search. The stage emits indices relative to the
    cut reference, and the comparison looks them up in the uncut one. */
module IntroComparison {
  import opened Basics
  import opened Dtw
  import opened DtwTheorems
  import opened TimeMaps
  import opened Align
  import opened AlignTheorems
  import opened TwoLevel
  import opened Pitch

  /** The index the comparison computes for recording frame `i`. */
  function FrameRead(w: WarpingPath, i: nat): int
    requires |w.index1| == |w.index2| > 0
  {
    FrameAt(FromWarpingPath(w.index1, w.index2, PITCH_HOP_SECONDS).UserToReference(TimeOf(i, PITCH_HOP_SECONDS)),
            PITCH_HOP_SECONDS)
  }

  /** The path matches recording frame `i` with frame `f` of the (cut) reference. */
  predicate Matches(w: WarpingPath, i: nat, f: int)
    requires |w.index1| == |w.index2|
  {
    exists k :: 0 <= k < |w.index1| && w.index1[k] == i && w.index2[k] == f
  }

  /** On every row of the path the index read is one the path matched with that row. */
  lemma ReadsAMatch(w: WarpingPath, n: nat, m: nat, i: nat)
    requires IsAlignment(w, n, m) && i < n
    ensures Matches(w, i, FrameRead(w, i))
  {
    var hop := PITCH_HOP_SECONDS;
    var xp, fp := Times(w.index1, hop), Times(w.index2, hop);
    var x := TimeOf(i, hop);
    hide TimeOf;
    TimeOrder(0, i, hop);
    var j := LastAtMost(x, xp);
    TimeOrder(w.index1[j], i, hop);
    if j + 1 < |xp| {
      TimeOrder(w.index1[j + 1], i, hop);
      assert Step(PairsOf(w)[j], PairsOf(w)[j + 1]);
    }
    assert w.index1[j] == i;
    FrameAtExact(w.index2[j], hop);
  }

  lemma ReadsForward(w: WarpingPath, n: nat, m: nat, i: nat)
    requires IsAlignment(w, n, m)
    ensures FrameRead(w, i) >= 0
  {
    var hop := PITCH_HOP_SECONDS;
    var xp, fp := Times(w.index1, hop), Times(w.index2, hop);
    AlignmentIsMonotone(w, n, m);
    SortedTimes(w.index2, hop);
    hide TimeOf;
    InterpInRange(TimeOf(i, hop), xp, fp);
    FrameAtExact(0, hop);
    FrameAtMonotone(fp[0], Interp(TimeOf(i, hop), xp, fp), hop);
  }

  /** An attempt that succeeds aligns a front part of each side. */
  lemma AttemptAligns<F>(user: seq<F>, reference: seq<F>, dist: (F, F) -> real, lv: Levels, attempt: Attempt)
    requires lv.stride >= 1 && AttemptOutcome(user, reference, dist, lv) == Ok(attempt)
    ensures exists n: nat, m: nat :: n <= |user| && m <= |reference| && IsAlignment(attempt.fine, n, m)
  {
    hide Outcome, ProjectedTimes, RefinedCenter;
    var c := CoarseGrid(user, reference, dist, lv);
    CoarseIndices(c);
    var g := FineGrid(user, reference, dist, lv, Outcome(c).value);
    AcceptedPathIsCheapest(g);
    assert IsAlignment(attempt.fine, |g.a|, |g.b|);
  }

  lemma AcceptedReads(user: seq<Hz>, reference: seq<Hz>, dist: (Hz, Hz) -> real, lv: Levels, order: seq<nat>,
                      offset: nat, attempt: Attempt)
    requires lv.stride >= 1
    requires MaxOffset(reference) >= 1 ==> |order| == MaxOffset(reference) + 1
    requires forall k :: 0 <= k < |order| ==> order[k] <= MaxOffset(reference)
    requires StageOutcome(user, reference, dist, lv, order) == Ok((offset, attempt))
    ensures var w := attempt.fine;
            && |w.index1| == |w.index2| > 0
            && (forall i: nat :: i <= w.index1[|w.index1| - 1] ==> Matches(w, i, FrameRead(w, i)))
            && (forall i: nat :: i < |user| ==> FrameRead(w, i) >= 0)
  {
    hide StageOutcome, AttemptOutcome, IsAlignment, FrameRead, Matches, Skip;
    AcceptedWithinCeiling(user, reference, dist, lv, order);
    var w := attempt.fine;
    AttemptAligns(user, Skip(reference, offset), dist, lv, attempt);
    var n: nat, m: nat :| n <= |user| && IsAlignment(w, n, m);
    AlignmentEnds(w, n, m);
    forall i: nat | i < n ensures Matches(w, i, FrameRead(w, i)) { ReadsAMatch(w, n, m, i); }
    forall i: nat | i < |user| ensures FrameRead(w, i) >= 0 { ReadsForward(w, n, m, i); }
  }

  /** For every accepted alignment: on each row of the path the aligned frame is `reference[f + offset]`
      where `f` is the index emitted for it, and the comparison reads `reference[f]`. The two agree on the
      whole take iff the reference repeats itself `offset` frames later at every index read; at offset 0
      they always do. */
  lemma ComparisonDropsTheOffset(user: seq<Hz>, reference: seq<Hz>, dist: (Hz, Hz) -> real, lv: Levels, order: seq<nat>,
                                 offset: nat, attempt: Attempt)
    requires lv.stride >= 1
    requires MaxOffset(reference) >= 1 ==> |order| == MaxOffset(reference) + 1
    requires forall k :: 0 <= k < |order| ==> order[k] <= MaxOffset(reference)
    requires StageOutcome(user, reference, dist, lv, order) == Ok((offset, attempt))
    ensures |attempt.fine.index1| == |attempt.fine.index2| > 0
    ensures var w := attempt.fine;
            var tm := FromWarpingPath(w.index1, w.index2, PITCH_HOP_SECONDS);
            var compared := AlignedReference(|user|, reference, tm, PITCH_HOP_SECONDS);
            var aligned := AlignedReference(|user|, Skip(reference, offset), tm, PITCH_HOP_SECONDS);
            && (forall i: nat :: i <= w.index1[|w.index1| - 1] ==> Matches(w, i, FrameRead(w, i)))
            && (forall i :: 0 <= i < |user| ==>
                              && FrameRead(w, i) >= 0
                              && compared[i] == At(reference, FrameRead(w, i))
                              && aligned[i] == At(reference, FrameRead(w, i) + offset))
            && (compared == aligned <==>
                forall i :: 0 <= i < |user| ==>
                              At(reference, FrameRead(w, i)) == At(reference, FrameRead(w, i) + offset))
            && (offset == 0 ==> compared == aligned)
  {
    hide StageOutcome, FrameRead, Matches, AlignedReference, At, Skip, FromWarpingPath;
    AcceptedReads(user, reference, dist, lv, order, offset, attempt);
    ReadsShifted(attempt.fine, |user|, reference, offset);
  }

  /** Through the same path, reading the uncut reference is reading the cut one that much earlier. */
  lemma ReadsShifted(w: WarpingPath, n: nat, reference: seq<Hz>, offset: nat)
    requires |w.index1| == |w.index2| > 0 && forall i: nat :: i < n ==> FrameRead(w, i) >= 0
    ensures var tm := FromWarpingPath(w.index1, w.index2, PITCH_HOP_SECONDS);
            var compared := AlignedReference(n, reference, tm, PITCH_HOP_SECONDS);
            var aligned := AlignedReference(n, Skip(reference, offset), tm, PITCH_HOP_SECONDS);
            && (forall i :: 0 <= i < n ==>
                              && compared[i] == At(reference, FrameRead(w, i))
                              && aligned[i] == At(reference, FrameRead(w, i) + offset))
            && (compared == aligned <==>
                forall i :: 0 <= i < n ==> At(reference, FrameRead(w, i)) == At(reference, FrameRead(w, i) + offset))
            && (offset == 0 ==> compared == aligned)
  {
    hide FrameRead, AlignedReference, At, Skip, FromWarpingPath;
    ReadsThrough(w, n, reference);
    ReadsThrough(w, n, Skip(reference, offset));
    forall i: nat | i < n
      ensures At(Skip(reference, offset), FrameRead(w, i)) == At(reference, FrameRead(w, i) + offset)
    {
      AtSkip(reference, offset, FrameRead(w, i));
    }
  }

  lemma AtSkip(reference: seq<Hz>, offset: nat, f: nat)
    ensures At(Skip(reference, offset), f) == At(reference, f + offset)
  {
  }

  lemma AlignmentEnds(w: WarpingPath, n: nat, m: nat)
    requires IsAlignment(w, n, m)
    ensures |w.index1| == |w.index2| > 0 && w.index1[|w.index1| - 1] == n - 1
  {
  }

  lemma ReadsThrough(w: WarpingPath, n: nat, reference: seq<Hz>)
    requires |w.index1| == |w.index2| > 0
    ensures var tm := FromWarpingPath(w.index1, w.index2, PITCH_HOP_SECONDS);
            && tm.Valid()
            && forall i :: 0 <= i < n ==>
                             AlignedReference(n, reference, tm, PITCH_HOP_SECONDS)[i] == At(reference, FrameRead(w, i))
  {
    hide Interp, FrameAt;
  }

  // ---------------------------------------------------------------- recovered intros

  lemma RecoveredReads(intro: seq<Hz>, take: seq<Hz>)
    requires take != []
    ensures var tm := FromWarpingPath(Identity(|take|), Identity(|take|), PITCH_HOP_SECONDS);
            && tm.Valid()
            && AlignedReference(|take|, Skip(intro + take, |intro|), tm, PITCH_HOP_SECONDS) == take
            && AlignedReference(|take|, intro + take, tm, PITCH_HOP_SECONDS) == (intro + take)[..|take|]
  {
    hide Interp, FrameAt, TimeOf, FromWarpingPath;
    assert Skip(intro + take, |intro|) == take;
    IdentityComparison(|take|, take);
    IdentityComparison(|take|, intro + take);
  }

  /** End to end: the stage recovers an intro that the search can identify; recording frame `i` is aligned
      with the take's own frame `i` but compared with frame `i` of the uncut reference, so the comparison
      reads the aligned frames iff the reference also begins with the take. */
  lemma RecoveredIntroComparesFromTheStart(intro: seq<Hz>, take: seq<Hz>, dist: (Hz, Hz) -> real, lv: Levels,
                                           order: seq<nat>)
    requires take != [] && IsDistance(dist) && 1 <= lv.stride <= lv.refineBand
    requires !TooManyCells(|Strided(take, lv.stride)|, lv.coarseBand) && !TooManyCells(|take|, lv.refineBand)
    requires 1 <= |intro| <= MaxOffset(intro + take)
    requires forall k :: 0 < k <= MaxOffset(intro + take) && k != |intro| ==>
                           OffsetScore(take, intro + take, dist, k) != Fin(0.0)
    requires IsArgsort(OffsetScores(take, intro + take, dist, MaxOffset(intro + take)), order)
    ensures var direct := Judge(AttemptOutcome(take, intro + take, dist, lv));
            var attempt := Attempt(IdentityPath(|take|), IdentityPath(|Strided(take, lv.stride)|), false);
            var tm := FromWarpingPath(attempt.fine.index1, attempt.fine.index2, PITCH_HOP_SECONDS);
            direct.Err? && direct.error.AlignmentFailed? ==>
              && StageOutcome(take, intro + take, dist, lv, order) == Ok((|intro|, attempt))
              && tm.Valid()
              && AlignedReference(|take|, Skip(intro + take, |intro|), tm, PITCH_HOP_SECONDS) == take
              && (AlignedReference(|take|, intro + take, tm, PITCH_HOP_SECONDS) == take
                  <==> (intro + take)[..|take|] == take)
  {
    hide StageOutcome, AttemptOutcome, OffsetScore, MaxOffset, Strided, AlignedReference, FromWarpingPath;
    IntroIsRecovered(intro, take, dist, lv, order);
    RecoveredReads(intro, take);
  }

  /** The total distance of one frame to each of several. */
  function TotalTo(x: Hz, reference: seq<Hz>, dist: (Hz, Hz) -> real): real {
    if reference == [] then 0.0
    else TotalTo(x, reference[..|reference| - 1], dist) + dist(x, reference[|reference| - 1])
  }

  /** A one-frame take passes by every frame of a reference shorter than the stride: the direct attempt costs
      their mean distance, and fails when that is over the ceiling. */
  lemma OneFrameDirectly(x: Hz, reference: seq<Hz>, dist: (Hz, Hz) -> real, lv: Levels)
    requires 1 <= |reference| <= lv.stride && lv.refineBand >= 1
    requires !TooManyCells(1, lv.coarseBand) && !TooManyCells(1, lv.refineBand)
    requires TotalTo(x, reference, dist) > ALIGN_PITCH_MAX_NORMALIZED_DISTANCE * |reference| as real
    ensures var direct := Judge(AttemptOutcome([x], reference, dist, lv));
            direct.Err? && direct.error.AlignmentFailed?
  {
    hide Outcome, AttemptOutcome, CoarseGrid, FineGrid, TooManyCells, TotalTo;
    OneStride([x], lv.stride);
    OneStride(reference, lv.stride);
    TooLargeExactly([x], reference, dist, lv);
    if AttemptOutcome([x], reference, dist, lv).Ok? {
      OneFrameCosts(x, reference, dist, lv);
    }
  }

  lemma OneStride(s: seq<Hz>, stride: nat)
    requires 1 <= |s| <= stride
    ensures Strided(s, stride) == [s[0]]
  {
    assert s[Min(stride, |s|)..] == [];
  }

  lemma OneFrameCosts(x: Hz, reference: seq<Hz>, dist: (Hz, Hz) -> real, lv: Levels)
    requires 1 <= |reference| <= lv.stride && AttemptOutcome([x], reference, dist, lv).Ok?
    ensures AttemptOutcome([x], reference, dist, lv).value.fine.normalizedDistance * |reference| as real
            == TotalTo(x, reference, dist)
  {
    hide Outcome, CoarseGrid, FineGrid, Mismatched, IsCheapestAlignment, TotalTo, IsMean;
    var coarse := Outcome(CoarseGrid([x], reference, dist, lv)).value;
    CoarseIndices(CoarseGrid([x], reference, dist, lv));
    var g := FineGrid([x], reference, dist, lv, coarse);
    OneFrameGrid(x, reference, dist, lv, coarse);
    AcceptedPathIsCheapest(g);
    OneRow(g, Outcome(g).value);
    OneRowMean(g, Outcome(g).value, x);
  }

  lemma OneFrameGrid(x: Hz, reference: seq<Hz>, dist: (Hz, Hz) -> real, lv: Levels, coarse: WarpingPath)
    requires 1 <= |reference| <= lv.stride && |coarse.index1| == |coarse.index2| > 0
    ensures var g := FineGrid([x], reference, dist, lv, coarse);
            g.a == [x] && g.b == reference && g.dist == dist
  {
    hide ProjectedTimes, RefinedCenter;
    OneStride([x], lv.stride);
    OneStride(reference, lv.stride);
  }

  lemma OneRowMean(g: Grid<Hz>, w: WarpingPath, x: Hz)
    requires g.a == [x] && IsMean(g, w) && |PairsOf(w)| == |g.b|
    requires forall k :: 0 <= k < |g.b| ==> PairsOf(w)[k] == Pair(0, k)
    ensures w.normalizedDistance * |g.b| as real == TotalTo(x, g.b, g.dist)
  {
    hide TotalTo;
    RowTotal(g, x, PairsOf(w), |g.b|);
  }

  /** The only alignment of one frame with several passes by each of them once. */
  lemma OneRow<F>(g: Grid<F>, w: WarpingPath)
    requires g.Valid() && |g.a| == 1 && IsCheapestAlignment(g, w)
    ensures IsMean(g, w) && |PairsOf(w)| == |g.b|
    ensures forall k :: 0 <= k < |g.b| ==> PairsOf(w)[k] == Pair(0, k)
  {
    CheapestIsMean(g, w);
    StepsRight(PairsOf(w), |g.b|);
  }

  lemma {:induction false} StepsRight(p: seq<Pair>, k: nat)
    requires p != [] && p[0] == Pair(0, 0) && IsWarp(p) && k <= |p| && forall l :: 0 <= l < |p| ==> p[l].i == 0
    ensures forall l :: 0 <= l < k ==> p[l] == Pair(0, l)
  {
    if k > 1 {
      StepsRight(p, k - 1);
      assert Step(p[k - 2], p[k - 1]);
    }
  }

  lemma {:induction false} RowTotal(g: Grid<Hz>, x: Hz, p: seq<Pair>, k: nat)
    requires g.a == [x] && k <= |g.b| && |p| == |g.b| && forall l :: 0 <= l < |p| ==> p[l] == Pair(0, l)
    ensures g.Sum(p[..k]) == TotalTo(x, g.b[..k], g.dist)
    ensures p[..|p|] == p && g.b[..|g.b|] == g.b
  {
    if k > 0 {
      RowTotal(g, x, p, k - 1);
      assert p[..k][..k - 1] == p[..k - 1] && g.b[..k][..k - 1] == g.b[..k - 1];
    }
  }

  const A4: Hz := Some(440.0)
  const E_FLAT_5: Hz := Some(622.25)
  const LEVELS := Levels(COARSE_STRIDE, COARSE_BAND, REFINE_BAND)

  /** A concrete failing input: one frame of A4 against an E-flat 5 followed by that A4. A tritone apart,
      the two embed to opposite points of the unit circle, at distance 2. The stage recovers the one-frame
      intro and aligns the A4 with itself, yet the comparison reads the E-flat. */
  lemma TritoneIntroIsMisread(dist: (Hz, Hz) -> real, order: seq<nat>)
    requires IsDistance(dist) && dist(A4, E_FLAT_5) > 0.9
    requires order == [1, 0]
    ensures MaxOffset([E_FLAT_5, A4]) == 1
    ensures IsArgsort(OffsetScores([A4], [E_FLAT_5, A4], dist, 1), order)
    ensures StageOutcome([A4], [E_FLAT_5, A4], dist, LEVELS, order)
            == Ok((1, Attempt(IdentityPath(1), IdentityPath(1), false)))
    ensures var tm := FromWarpingPath(Identity(1), Identity(1), PITCH_HOP_SECONDS);
            && tm.Valid()
            && AlignedReference(1, Skip([E_FLAT_5, A4], 1), tm, PITCH_HOP_SECONDS) == [A4]
            && AlignedReference(1, [E_FLAT_5, A4], tm, PITCH_HOP_SECONDS) == [E_FLAT_5]
  {
    hide StageOutcome, AttemptOutcome, AlignedReference, TooManyCells, IsArgsort, OffsetScores, OffsetScore;
    var intro, take := [E_FLAT_5], [A4];
    assert intro + take == [E_FLAT_5, A4];
    SmallGrids();
    OneStride(take, COARSE_STRIDE);
    OneFrameDirectly(A4, intro + take, dist, LEVELS) by { TotalOfTwo(A4, intro + take, dist); }
    TritoneScores(dist, order);
    RecoveredIntroComparesFromTheStart(intro, take, dist, LEVELS, order);
    RecoveredReads(intro, take);
  }

  lemma TotalOfTwo(x: Hz, r: seq<Hz>, dist: (Hz, Hz) -> real)
    requires |r| == 2
    ensures TotalTo(x, r, dist) == dist(x, r[0]) + dist(x, r[1])
  {
    assert r[..1][..0] == [] && r[..1][0] == r[0];
    assert TotalTo(x, r[..1], dist) == TotalTo(x, r[..1][..0], dist) + dist(x, r[0]);
  }

  lemma TotalOfThree(x: Hz, r: seq<Hz>, dist: (Hz, Hz) -> real)
    requires |r| == 3
    ensures TotalTo(x, r, dist) == dist(x, r[0]) + dist(x, r[1]) + dist(x, r[2])
  {
    TotalOfTwo(x, r[..2], dist);
  }

  lemma SmallGrids()
    ensures COARSE_STRIDE == 5 && COARSE_BAND == 200 && REFINE_BAND == 20 && MAX_OFFSET_FRAMES == 6000
    ensures !TooManyCells(1, COARSE_BAND) && !TooManyCells(1, REFINE_BAND)
  {
    Settings();
  }

  /** A one-frame take scores its distance to the frame at each offset. */
  lemma OneFrameScore(x: Hz, reference: seq<Hz>, dist: (Hz, Hz) -> real, k: nat)
    requires k < |reference|
    ensures OffsetScore([x], reference, dist, k) == Fin(dist(x, reference[k]))
  {
    assert UnwarpedTotal([x], reference, dist, k, 1) == dist(x, reference[k]);
  }

  lemma TritoneScores(dist: (Hz, Hz) -> real, order: seq<nat>)
    requires IsDistance(dist) && dist(A4, E_FLAT_5) > 0.9 && order == [1, 0]
    ensures MaxOffset([E_FLAT_5, A4]) == 1
    ensures IsArgsort(OffsetScores([A4], [E_FLAT_5, A4], dist, 1), order)
  {
    SmallGrids();
    forall k | 0 <= k <= 1 { OneFrameScore(A4, [E_FLAT_5, A4], dist, k); }
    hide OffsetScore;
    assert order[0] == 1 && order[1] == 0;
    assert OffsetScores([A4], [E_FLAT_5, A4], dist, 1) == [Fin(dist(A4, E_FLAT_5)), Fin(0.0)];
  }

  /** A concrete input on which the comparison is right after a recovered intro: the same A4 against an A4, an
      E-flat 5 and an A4. Offset 0 scores zero as well but is no candidate, and the frame read in its place
      is the same note. */
  lemma RepeatedNoteIsReadRight(dist: (Hz, Hz) -> real, order: seq<nat>)
    requires IsDistance(dist) && dist(A4, E_FLAT_5) > 1.35
    requires order == [0, 2, 1]
    ensures MaxOffset([A4, E_FLAT_5, A4]) == 2
    ensures IsArgsort(OffsetScores([A4], [A4, E_FLAT_5, A4], dist, 2), order)
    ensures StageOutcome([A4], [A4, E_FLAT_5, A4], dist, LEVELS, order)
            == Ok((2, Attempt(IdentityPath(1), IdentityPath(1), false)))
    ensures var tm := FromWarpingPath(Identity(1), Identity(1), PITCH_HOP_SECONDS);
            && tm.Valid()
            && AlignedReference(1, [A4, E_FLAT_5, A4], tm, PITCH_HOP_SECONDS) == [A4]
  {
    hide StageOutcome, AttemptOutcome, AlignedReference, TooManyCells, IsArgsort, OffsetScores;
    var intro, take := [A4, E_FLAT_5], [A4];
    assert intro + take == [A4, E_FLAT_5, A4];
    SmallGrids();
    OneStride(take, COARSE_STRIDE);
    OneFrameDirectly(A4, intro + take, dist, LEVELS) by { TotalOfThree(A4, intro + take, dist); }
    RepeatedNoteScores(dist, order);
    OneFrameScore(A4, intro + take, dist, 1);
    hide OffsetScore;
    RecoveredIntroComparesFromTheStart(intro, take, dist, LEVELS, order);
    RecoveredReads(intro, take);
  }

  lemma RepeatedNoteScores(dist: (Hz, Hz) -> real, order: seq<nat>)
    requires IsDistance(dist) && dist(A4, E_FLAT_5) > 1.35 && order == [0, 2, 1]
    ensures MaxOffset([A4, E_FLAT_5, A4]) == 2
    ensures IsArgsort(OffsetScores([A4], [A4, E_FLAT_5, A4], dist, 2), order)
  {
    SmallGrids();
    forall k | 0 <= k <= 2 { OneFrameScore(A4, [A4, E_FLAT_5, A4], dist, k); }
    hide OffsetScore;
    assert order[0] == 0 && order[1] == 2 && order[2] == 1;
    assert OffsetScores([A4], [A4, E_FLAT_5, A4], dist, 2) == [Fin(0.0), Fin(dist(A4, E_FLAT_5)), Fin(0.0)];
  }

  // ---------------------------------------------------------------- transposed takes

  /** Wherever the accepted path matches two voiced frames, they are `k` cents apart. */
  ghost predicate MatchedAreTransposed(user: seq<Hz>, reference: seq<Hz>, cents: (real, real) -> real, w: WarpingPath,
                                       k: real)
    requires |w.index1| == |w.index2|
  {
    forall i: nat, f: nat :: i < |user| && f < |reference| && Matches(w, i, f)
                             && user[i].Some? && reference[f].Some? ==>
                               cents(user[i].value, reference[f].value) == k
  }

  /** An attempt without a length mismatch aligns the whole take. */
  lemma AttemptCoversTake<F>(user: seq<F>, reference: seq<F>, dist: (F, F) -> real, lv: Levels, attempt: Attempt)
    requires lv.stride >= 1 && AttemptOutcome(user, reference, dist, lv) == Ok(attempt) && !attempt.lengthMismatch
    ensures IsAlignment(attempt.fine, |user|, |reference|)
  {
    hide Outcome, ProjectedTimes, RefinedCenter;
    var c := CoarseGrid(user, reference, dist, lv);
    CoarseIndices(c);
    var g := FineGrid(user, reference, dist, lv, Outcome(c).value);
    AcceptedPathIsCheapest(g);
  }

  /** A take accepted at offset 0 over its whole length, every matched voiced pair of which is one interval
      apart: key normalisation finds that interval, applies it iff transposing is eligible and the interval
      lies between the limits, and then the score is 100. */
  lemma TransposedAlignmentScores100(user: seq<Hz>, reference: seq<Hz>, dist: (Hz, Hz) -> real, lv: Levels,
                                     order: seq<nat>, attempt: Attempt, cents: (real, real) -> real, k: real,
                                     limits: KeyLimits, eligible: bool)
    requires lv.stride >= 1 && limits.maxIqrSemitones >= 0.0
    requires MaxOffset(reference) >= 1 ==> |order| == MaxOffset(reference) + 1
    requires forall i :: 0 <= i < |order| ==> order[i] <= MaxOffset(reference)
    requires StageOutcome(user, reference, dist, lv, order) == Ok((0, attempt)) && !attempt.lengthMismatch
    requires |attempt.fine.index1| == |attempt.fine.index2|
    requires MatchedAreTransposed(user, reference, cents, attempt.fine, k)
    ensures var tm := FromWarpingPath(attempt.fine.index1, attempt.fine.index2, PITCH_HOP_SECONDS);
            && tm.Valid()
            && var d := Deviations(cents, user, AlignedReference(|user|, reference, tm, PITCH_HOP_SECONDS));
               var r := NormalizeKey(limits, eligible, d);
               Present(d) != [] ==>
                 && r.medianSemitones == k / SEMITONE_CENTS
                 && (r.applied <==>
                     eligible && limits.minSemitones <= Abs(k / SEMITONE_CENTS) <= limits.maxSemitones)
                 && (r.applied ==> r.adjustedScore == Some(100.0))
  {
    hide StageOutcome, AttemptOutcome, NormalizeKey, FromWarpingPath, AlignedReference, FrameRead, Matches, IsAlignment;
    AcceptedWithinCeiling(user, reference, dist, lv, order);
    assert Skip(reference, 0) == reference;
    AttemptCoversTake(user, reference, dist, lv, attempt);
    var w := attempt.fine;
    AlignmentEnds(w, |user|, |reference|);
    ReadsThrough(w, |user|, reference);
    var tm := FromWarpingPath(w.index1, w.index2, PITCH_HOP_SECONDS);
    var d := Deviations(cents, user, AlignedReference(|user|, reference, tm, PITCH_HOP_SECONDS));
    forall i | 0 <= i < |d| && d[i].Some? ensures d[i].value == k {
      ReadsAMatch(w, |user|, |reference|, i);
      assert d[i] == Deviation(cents, user[i], At(reference, FrameRead(w, i)));
    }
    PresentAllEqual(d, k);
    if Present(d) != [] { TransposedTakeScores100(limits, eligible, d, k); }
  }

  lemma {:induction false} PresentAllEqual(d: seq<Option<real>>, k: real)
    requires forall i :: 0 <= i < |d| && d[i].Some? ==> d[i].value == k
    ensures AllEqual(Present(d), k)
  {
    if d != [] { PresentAllEqual(d[1..], k); }
  }
}
