/** What one alignment attempt, the start-offset scan and the stage are, in terms of the frames themselves: every
    claim here names the inputs, the two passes' optimality and the geometry of their bands. */
module TwoLevel {
  import opened Basics
  import opened Dtw
  import opened DtwTheorems
  import opened TimeMaps
  import opened Align
  import opened AlignTheorems

  /** The settings as numbers of frames. */
  lemma Settings()
    ensures COARSE_STRIDE == 5 && COARSE_BAND == 200 && REFINE_BAND == 20 && MAX_OFFSET_FRAMES == 6000
  {
    RoundExact(5);
    RoundExact(200);
    RoundExact(20);
    RoundExact(6000);
  }

  // ---------------------------------------------------------------- the coarse level

  /** How many frames a stride picks: every `stride`-th, the first included. */
  function Picked(n: nat, stride: nat): nat
    requires stride >= 1
  {
    (n + stride - 1) / stride
  }

  lemma {:induction false} StridedAt<F>(s: seq<F>, stride: nat, k: nat)
    requires stride >= 1 && k < |Strided(s, stride)|
    ensures stride * k < |s| && Strided(s, stride)[k] == s[stride * k]
    decreases |s|
  {
    var rest := s[Min(stride, |s|)..];
    if k > 0 {
      StridedAt(rest, stride, k - 1);
      assert stride * k == stride * (k - 1) + stride;
    }
  }

  /** The stride picks exactly the frames at its multiples. */
  lemma StridedExactly<F>(s: seq<F>, stride: nat)
    requires stride >= 1
    ensures var r := Strided(s, stride);
            && |r| == Picked(|s|, stride)
            && forall k :: 0 <= k < |r| ==> stride * k < |s| && r[k] == s[stride * k]
  {
    hide Strided, Picked;
    var r := Strided(s, stride);
    StridedLength(s, stride);
    PickedIs(|s|, stride, |r|);
    forall k | 0 <= k < |r| ensures stride * k < |s| && r[k] == s[stride * k] { StridedAt(s, stride, k); }
  }

  lemma PickedIs(n: nat, stride: nat, k: nat)
    requires stride >= 1 && n <= stride * k < n + stride
    ensures k == Picked(n, stride)
  {
    var q := Picked(n, stride);
    assert stride * q <= n + stride - 1 < stride * (q + 1) by {
      assert (n + stride - 1) == stride * q + (n + stride - 1) % stride;
    }
    if k < q { FewerTimes(stride, k + 1, q); }
    if q < k { FewerTimes(stride, q + 1, k); }
  }

  lemma FewerTimes(c: nat, x: nat, y: nat)
    requires x <= y
    ensures c * x <= c * y
  {
  }

  /** The coarse pass compares every `stride`-th frame of both sides around the diagonal, both cut to the shorter
      when their lengths differ by more than the band. */
  ghost predicate IsCoarse<F(!new)>(g: Grid<F>, user: seq<F>, reference: seq<F>, dist: (F, F) -> real, lv: Levels)
    requires lv.stride >= 1
  {
    var n, m := Picked(|user|, lv.stride), Picked(|reference|, lv.stride);
    && g.Valid() && g.dist == dist && g.band == lv.coarseBand
    && |g.a| == (if Gap(n, m) > lv.coarseBand then Min(n, m) else n)
    && |g.b| == (if Gap(n, m) > lv.coarseBand then Min(n, m) else m)
    && (forall k :: 0 <= k < |g.a| ==> lv.stride * k < |user| && g.a[k] == user[lv.stride * k])
    && (forall k :: 0 <= k < |g.b| ==> lv.stride * k < |reference| && g.b[k] == reference[lv.stride * k])
    && (forall i :: 0 <= i <= |g.a| ==> g.center[i] == i)
  }

  lemma CoarseIs<F(!new)>(user: seq<F>, reference: seq<F>, dist: (F, F) -> real, lv: Levels)
    requires lv.stride >= 1
    ensures IsCoarse(CoarseGrid(user, reference, dist, lv), user, reference, dist, lv)
    ensures var n, m := Picked(|user|, lv.stride), Picked(|reference|, lv.stride);
            Mismatched(user, reference, lv) <==> Gap(n, m) > lv.coarseBand
  {
    StridedExactly(user, lv.stride);
    StridedExactly(reference, lv.stride);
    hide Strided, Picked;
  }

  // ---------------------------------------------------------------- the refined level

  /** The refined pass compares all frames, or what the cut coarse pass covered, around a centre that follows the
      coarse path and carries the gap it leaves at the end. */
  ghost predicate IsFine<F(!new)>(g: Grid<F>, user: seq<F>, reference: seq<F>, dist: (F, F) -> real, lv: Levels,
                                  coarse: WarpingPath)
    requires lv.stride >= 1 && |coarse.index1| == |coarse.index2| > 0
  {
    var n, m := Picked(|user|, lv.stride), Picked(|reference|, lv.stride);
    var keep := Min(n, m) * lv.stride;
    && g.Valid() && g.dist == dist && g.band == lv.refineBand && g.a != [] && g.b != []
    && g.a == (if Gap(n, m) > lv.coarseBand then user[..Min(keep, |user|)] else user)
    && g.b == (if Gap(n, m) > lv.coarseBand then reference[..Min(keep, |reference|)] else reference)
    && exists led: seq<int> :: FollowsPath(g.center, |g.a|, |g.b|, coarse, lv.stride, led)
  }

  /** `led[i]` is where the coarse path leads fine frame `i`; the centre is there, clipped to the reference, plus
      its share of what is missing at the end. */
  ghost predicate FollowsPath(center: seq<int>, n: nat, m: nat, coarse: WarpingPath, stride: nat, led: seq<int>)
    requires |coarse.index1| == |coarse.index2| > 0
  {
    && |center| == n + 1 && |led| == n > 0 && center[0] == 0
    && forall i :: 0 <= i < n ==>
                     && led[i] >= 0 && LeadsTo(coarse, stride, i, led[i])
                     && CarriesItsShare(center, n, m, i, Min(led[i], m), m - Min(led[n - 1], m))
  }

  lemma CenterIs(coarse: WarpingPath, stride: nat, hop: real, n: nat, m: nat) returns (led: seq<int>)
    requires IsMonotone(coarse) && stride >= 1 && hop > 0.0 && n > 0
    ensures var ts := ProjectedTimes(coarse, stride as real * hop, hop, n);
            FollowsPath(RefinedCenter(ts, hop, m), n, m, coarse, stride, led)
  {
    hide LeadsTo, CarriesItsShare, ProjectedFrame, ProjectedTimes, CenterAt;
    led := seq(n, i requires 0 <= i < n => ProjectedFrame(coarse, stride, hop, n, i));
    forall i | 0 <= i < n
      ensures var ts := ProjectedTimes(coarse, stride as real * hop, hop, n);
              && led[i] >= 0 && LeadsTo(coarse, stride, i, led[i])
              && CarriesItsShare(RefinedCenter(ts, hop, m), n, m, i, Min(led[i], m), m - Min(led[n - 1], m))
    {
      ProjectionFollowsPath(coarse, stride, hop, n, i);
      CenterFollowsPath(coarse, stride, hop, n, m, i);
    }
  }

  lemma FineIs<F(!new)>(user: seq<F>, reference: seq<F>, dist: (F, F) -> real, lv: Levels, coarse: WarpingPath)
    requires lv.stride >= 1 && user != [] && reference != [] && IsMonotone(coarse)
    ensures IsFine(FineGrid(user, reference, dist, lv, coarse), user, reference, dist, lv, coarse)
  {
    hide FollowsPath, ProjectedTimes, RefinedCenter;
    var g := FineGrid(user, reference, dist, lv, coarse);
    FineSides(user, reference, dist, lv, coarse);
    FineCut(user, reference, dist, lv, coarse);
    var led := CenterIs(coarse, lv.stride, PITCH_HOP_SECONDS, |g.a|, |g.b|);
  }

  lemma FineCut<F(!new)>(user: seq<F>, reference: seq<F>, dist: (F, F) -> real, lv: Levels, coarse: WarpingPath)
    requires lv.stride >= 1 && |coarse.index1| == |coarse.index2| > 0
    ensures var g := FineGrid(user, reference, dist, lv, coarse);
            var n, m := Picked(|user|, lv.stride), Picked(|reference|, lv.stride);
            var keep := Min(n, m) * lv.stride;
            && g.dist == dist && g.band == lv.refineBand
            && g.a == (if Gap(n, m) > lv.coarseBand then user[..Min(keep, |user|)] else user)
            && g.b == (if Gap(n, m) > lv.coarseBand then reference[..Min(keep, |reference|)] else reference)
  {
    hide ProjectedTimes, RefinedCenter, Picked;
    CoarseIs(user, reference, dist, lv);
    hide CoarseGrid, Mismatched;
  }

  /** What a successful attempt is: a cheapest alignment of the coarse frames, and a cheapest alignment of the
      frames around the centre that follows it; the flag says whether the coarse sides were cut. */
  lemma AttemptIsTwoLevel<F(!new)>(user: seq<F>, reference: seq<F>, dist: (F, F) -> real, lv: Levels, attempt: Attempt)
    requires lv.stride >= 1 && AttemptOutcome(user, reference, dist, lv) == Ok(attempt)
    ensures |attempt.coarse.index1| == |attempt.coarse.index2| > 0
    ensures exists c: Grid<F> :: IsCoarse(c, user, reference, dist, lv) && IsCheapestAlignment(c, attempt.coarse)
    ensures exists f: Grid<F> ::
              IsFine(f, user, reference, dist, lv, attempt.coarse) && IsCheapestAlignment(f, attempt.fine)
    ensures attempt.lengthMismatch
            <==> Gap(Picked(|user|, lv.stride), Picked(|reference|, lv.stride)) > lv.coarseBand
  {
    hide Outcome, IsCoarse, IsFine, IsCheapestAlignment, CoarseGrid, FineGrid, Mismatched, Picked, IsMonotone;
    EmptySidesFail(user, reference, dist, lv);
    var c := CoarseGrid(user, reference, dist, lv);
    CoarseIs(user, reference, dist, lv);
    AcceptedPathIsCheapest(c);
    CoarseIndices(c);
    CoarseMonotone(c);
    FineIs(user, reference, dist, lv, attempt.coarse);
    AcceptedPathIsCheapest(FineGrid(user, reference, dist, lv, attempt.coarse));
  }

  lemma CoarseMonotone<F(!new)>(g: Grid<F>)
    requires g.Valid() && Outcome(g).Ok?
    ensures IsMonotone(Outcome(g).value)
  {
    hide Outcome;
    CoarseIndices(g);
    AcceptedPathIsMonotone(g, Outcome(g).value);
  }

  lemma EmptySidesFail<F(!new)>(user: seq<F>, reference: seq<F>, dist: (F, F) -> real, lv: Levels)
    requires lv.stride >= 1
    ensures user == [] || reference == [] ==> AttemptOutcome(user, reference, dist, lv).Err?
  {
    if user == [] || reference == [] { EmptyIsRejected(CoarseGrid(user, reference, dist, lv)); }
  }

  // ---------------------------------------------------------------- the start-offset scan

  /** The total of a scan is the cost of the diagonal of the reference cut at the offset. */
  lemma {:induction false} TotalIsDiagonal<F>(g: Grid<F>, b: seq<F>, k: nat, count: nat)
    requires k <= |b| && g.b == b[k..] && count <= |g.a| && count <= |g.b|
    ensures UnwarpedTotal(g.a, b, g.dist, k, count) == g.Sum(DiagonalPairs(count))
  {
    if count > 0 {
      TotalIsDiagonal(g, b, k, count - 1);
      var p := DiagonalPairs(count);
      assert p[..count - 1] == DiagonalPairs(count - 1);
    }
  }

  /** The score of a start offset, whatever computes it: infinite iff nothing is left to compare, and otherwise the
      mean cost of the diagonal of the two sides from there on, which lies between any bounds on its frames'
      distances. */
  lemma OffsetScoreExactly<F(!new)>(a: seq<F>, b: seq<F>, dist: (F, F) -> real, k: nat, lo: real, hi: real)
    ensures OffsetScore(a, b, dist, k).Inf? <==> a == [] || k >= |b|
    ensures OffsetScore(a, b, dist, k).Fin? ==>
              var count: nat, v := Min(|a|, |b| - k), OffsetScore(a, b, dist, k).v;
              && v * count as real == Grid(a, b[k..], dist, Diagonal(|a|), 0).Sum(DiagonalPairs(count))
              && ((forall i :: 0 <= i < count ==> lo <= dist(a[i], b[k + i]) <= hi) ==> lo <= v <= hi)
  {
    hide Grid.Sum, UnwarpedTotal;
    if a != [] && k < |b| {
      var g := Grid(a, b[k..], dist, Diagonal(|a|), 0);
      var count: nat := Min(|a|, |b| - k);
      TotalIsDiagonal(g, b, k, count);
      DivideExact(UnwarpedTotal(a, b, dist, k, count), count as real);
      if forall i :: 0 <= i < count ==> lo <= dist(a[i], b[k + i]) <= hi {
        DiagonalWithin(g, count, lo, hi);
        MeanWithin(g.Sum(DiagonalPairs(count)), count, OffsetScore(a, b, dist, k).v, lo, hi);
      }
    }
  }

  lemma DiagonalWithin<F>(g: Grid<F>, count: nat, lo: real, hi: real)
    requires count <= |g.a| && count <= |g.b|
    requires forall i :: 0 <= i < count ==> lo <= g.dist(g.a[i], g.b[i]) <= hi
    ensures |DiagonalPairs(count)| == count
    ensures lo * count as real <= g.Sum(DiagonalPairs(count)) <= hi * count as real
  {
    hide Grid.Sum;
    SumWithin(g, DiagonalPairs(count), lo, hi);
  }

  /** The start offsets scanned: up to a minute, and leaving at least one frame. */
  lemma OffsetsScanned<F(!new)>(reference: seq<F>, k: nat)
    ensures k <= MaxOffset(reference) <==> k <= 6000 && k < |reference|
  {
    Settings();
  }

  // ---------------------------------------------------------------- what the stage accepts

  /** An attempt that came to `attempt` within the ceiling. */
  predicate Fits(r: Result<Attempt, AlignError>, attempt: Attempt) {
    r == Ok(attempt) && attempt.fine.normalizedDistance <= 0.45
  }

  predicate FitsNone(r: Result<Attempt, AlignError>) {
    r.Ok? ==> r.value.fine.normalizedDistance > 0.45
  }

  /** `offset` is the first of the three best-scoring positive offsets whose own attempt fits, and it comes to
      `attempt`. */
  ghost predicate FirstFit<F(!new)>(user: seq<F>, reference: seq<F>, dist: (F, F) -> real, lv: Levels, order: seq<nat>,
                                    offset: nat, attempt: Attempt)
    requires lv.stride >= 1
  {
    exists c :: 0 <= c < 3 && c < |order| && FitsAt(user, reference, dist, lv, order, c, offset, attempt)
  }

  ghost predicate FitsAt<F(!new)>(user: seq<F>, reference: seq<F>, dist: (F, F) -> real, lv: Levels, order: seq<nat>,
                                  c: nat, offset: nat, attempt: Attempt)
    requires lv.stride >= 1 && c < |order|
  {
    && order[c] == offset && 0 < offset < |reference|
    && Fits(AttemptOutcome(user, reference[offset..], dist, lv), attempt)
    && forall k :: 0 <= k < c && 0 < order[k] < |reference| ==>
                     FitsNone(AttemptOutcome(user, reference[order[k]..], dist, lv))
  }

  /** Exactly what the stage accepts: the direct attempt if it fits; otherwise, unless it was too large, the first
      fit among the three best-scoring positive offsets. */
  lemma StageAcceptsExactly<F(!new)>(user: seq<F>, reference: seq<F>, dist: (F, F) -> real, lv: Levels, order: seq<nat>,
                                     offset: nat, attempt: Attempt)
    requires lv.stride >= 1 && lv.refineBand >= 1
    requires MaxOffset(reference) >= 1 ==> IsArgsort(OffsetScores(user, reference, dist, MaxOffset(reference)), order)
    requires MaxOffset(reference) < 1 ==> order == []
    ensures var direct := AttemptOutcome(user, reference, dist, lv);
            StageOutcome(user, reference, dist, lv, order) == Ok((offset, attempt))
            <==> (offset == 0 && Fits(direct, attempt))
                 || (FitsNone(direct) && direct != Err(AlignmentTooLarge)
                     && FirstFit(user, reference, dist, lv, order, offset, attempt))
  {
    hide AttemptOutcome, OffsetScore, SearchOutcome, IsArgsort, FitsAt, MaxOffset;
    var direct := AttemptOutcome(user, reference, dist, lv);
    if FitsNone(direct) && direct != Err(AlignmentTooLarge) && MaxOffset(reference) >= 1 {
      OrderFacts(OffsetScores(user, reference, dist, MaxOffset(reference)), order);
      SearchExactly(user, reference, dist, lv, order, Judge(direct).error, offset, attempt);
    }
  }

  lemma OrderFacts(scores: seq<Cost>, order: seq<nat>)
    requires IsArgsort(scores, order)
    ensures |order| == |scores| && forall k :: 0 <= k < |order| ==> order[k] < |scores|
  {
  }

  /** The search, over the attempts as they are. */
  lemma SearchExactly<F(!new)>(user: seq<F>, reference: seq<F>, dist: (F, F) -> real, lv: Levels, order: seq<nat>,
                               original: AlignError, offset: nat, attempt: Attempt)
    requires lv.stride >= 1 && lv.refineBand >= 1 && MaxOffset(reference) >= 1 && original != AlignmentTooLarge
    requires AttemptOutcome(user, reference, dist, lv) != Err(AlignmentTooLarge)
    requires |order| == MaxOffset(reference) + 1 && forall k :: 0 <= k < |order| ==> order[k] <= MaxOffset(reference)
    ensures SearchOutcome(Attempts(user, reference, dist, lv),
                          OffsetScores(user, reference, dist, MaxOffset(reference)),
                          Take(order, ALIGN_START_OFFSET_CANDIDATE_COUNT), original) == Ok((offset, attempt))
            <==> FirstFit(user, reference, dist, lv, order, offset, attempt)
  {
    hide AttemptOutcome, OffsetScore, SearchOutcome, MaxOffset;
    var attempts := Attempts(user, reference, dist, lv);
    var scores := OffsetScores(user, reference, dist, MaxOffset(reference));
    var candidates := Take(order, ALIGN_START_OFFSET_CANDIDATE_COUNT);
    SearchTakesFirstAcceptable(attempts, scores, candidates, original);
    forall k | 0 <= k < |candidates| ensures attempts(candidates[k]) != Err(AlignmentTooLarge) {
      NoCandidateTooLarge(user, reference, Skip(reference, candidates[k]), dist, lv);
    }
    forall k | 0 <= k < |candidates|
      ensures candidates[k] < |reference|
      ensures attempts(candidates[k]) == AttemptOutcome(user, reference[candidates[k]..], dist, lv)
      ensures Acceptable(attempts, scores, candidates[k])
              <==> candidates[k] > 0 && !FitsNone(AttemptOutcome(user, reference[candidates[k]..], dist, lv))
    {
      CandidateIs(user, reference, dist, lv, candidates[k]);
    }
    hide Acceptable, Attempts, OffsetScores, FitsAt;
    if FirstFit(user, reference, dist, lv, order, offset, attempt) {
      var c :| 0 <= c < 3 && c < |order| && FitsAt(user, reference, dist, lv, order, c, offset, attempt);
      FitsMeans(user, reference, dist, lv, order, c, offset, attempt);
      assert candidates[c] == offset && Acceptable(attempts, scores, candidates[c]);
      forall k | 0 <= k < c ensures !Acceptable(attempts, scores, candidates[k]) {
        assert candidates[k] == order[k];
      }
    }
    if SearchOutcome(attempts, scores, candidates, original) == Ok((offset, attempt)) {
      var c :| 0 <= c < |candidates| && candidates[c] == offset && Acceptable(attempts, scores, offset)
               && forall k :: 0 <= k < c ==> !Acceptable(attempts, scores, candidates[k]);
      forall k | 0 <= k < c && 0 < order[k] < |reference|
        ensures FitsNone(AttemptOutcome(user, reference[order[k]..], dist, lv))
      {
        assert candidates[k] == order[k];
      }
      MeansFits(user, reference, dist, lv, order, c, offset, attempt);
    }
  }

  lemma FitsMeans<F(!new)>(user: seq<F>, reference: seq<F>, dist: (F, F) -> real, lv: Levels, order: seq<nat>,
                           c: nat, offset: nat, attempt: Attempt)
    requires lv.stride >= 1 && c < |order| && FitsAt(user, reference, dist, lv, order, c, offset, attempt)
    ensures order[c] == offset && 0 < offset < |reference|
    ensures Fits(AttemptOutcome(user, reference[offset..], dist, lv), attempt)
    ensures forall k :: 0 <= k < c && 0 < order[k] < |reference| ==>
                          FitsNone(AttemptOutcome(user, reference[order[k]..], dist, lv))
  {
  }

  lemma MeansFits<F(!new)>(user: seq<F>, reference: seq<F>, dist: (F, F) -> real, lv: Levels, order: seq<nat>,
                           c: nat, offset: nat, attempt: Attempt)
    requires lv.stride >= 1 && c < |order| && order[c] == offset && 0 < offset < |reference|
    requires Fits(AttemptOutcome(user, reference[offset..], dist, lv), attempt)
    requires forall k :: 0 <= k < c && 0 < order[k] < |reference| ==>
                           FitsNone(AttemptOutcome(user, reference[order[k]..], dist, lv))
    ensures FitsAt(user, reference, dist, lv, order, c, offset, attempt)
  {
  }

  lemma CandidateIs<F(!new)>(user: seq<F>, reference: seq<F>, dist: (F, F) -> real, lv: Levels, k: nat)
    requires lv.stride >= 1 && MaxOffset(reference) >= 1 && k <= MaxOffset(reference)
    ensures k < |reference|
    ensures Attempts(user, reference, dist, lv)(k) == AttemptOutcome(user, reference[k..], dist, lv)
    ensures Acceptable(Attempts(user, reference, dist, lv),
                       OffsetScores(user, reference, dist, MaxOffset(reference)), k)
            <==> k > 0 && !FitsNone(AttemptOutcome(user, reference[k..], dist, lv))
  {
    hide AttemptOutcome, OffsetScore;
    OffsetsScanned(reference, k);
    assert Skip(reference, k) == reference[k..];
    OffsetScoreExactly(user, reference, dist, k, 0.0, 0.0);
    EmptySidesFail(user, reference[k..], dist, lv);
  }
}
