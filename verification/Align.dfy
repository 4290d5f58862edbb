/** The two-level alignment of a recording to its reference
    (worker/src/vocalcoach/pipeline/stages/align.py). A frame is one pitch value; `dist` is the
    distance between the embeddings of two pitch values. */
module Align {
  import opened Basics
  import opened Dtw
  import opened DtwTheorems
  import opened TimeMaps

  const PITCH_HOP_SECONDS := 0.01
  const FEATURES_HOP_SECONDS := 0.05
  const ALIGN_WINDOW_SECONDS := 10.0
  const ALIGN_REFINE_WINDOW_SECONDS := 0.2
  const ALIGN_PITCH_MAX_NORMALIZED_DISTANCE := 0.45
  const ALIGN_MAX_START_OFFSET_SECONDS := 60.0
  const ALIGN_START_OFFSET_CANDIDATE_COUNT := 3

  const COARSE_STRIDE: nat := Max(1, RoundHalfEven(FEATURES_HOP_SECONDS / PITCH_HOP_SECONDS))
  const COARSE_BAND: nat := Max(1, RoundHalfEven(ALIGN_WINDOW_SECONDS / FEATURES_HOP_SECONDS))
  const REFINE_BAND: nat := Max(1, RoundHalfEven(ALIGN_REFINE_WINDOW_SECONDS / PITCH_HOP_SECONDS))
  const MAX_OFFSET_FRAMES: int := RoundHalfEven(ALIGN_MAX_START_OFFSET_SECONDS / PITCH_HOP_SECONDS)

  ghost predicate IsDistance<F(!new)>(dist: (F, F) -> real) {
    (forall x, y :: dist(x, y) >= 0.0) && (forall x :: dist(x, x) == 0.0)
  }

  // ---------------------------------------------------------------- one two-level attempt

  /** The slice `s[::stride]`. */
  function Strided<F>(s: seq<F>, stride: nat): (r: seq<F>)
    requires stride >= 1
    ensures s != [] <==> r != []
  {
    if s == [] then [] else [s[0]] + Strided(s[Min(stride, |s|)..], stride)
  }

  /** The slice `s[:k]`. */
  function Take<F>(s: seq<F>, k: nat): seq<F> {
    s[..Min(k, |s|)]
  }

  /** The slice `s[k:]`. */
  function Skip<F>(s: seq<F>, k: nat): seq<F> {
    s[Min(k, |s|)..]
  }

  function CropToOverlap<F>(user: seq<F>, reference: seq<F>, coarseBand: nat): (r: (seq<F>, seq<F>, bool))
    ensures user != [] && reference != [] ==> r.0 != [] && r.1 != []
    ensures r.0 <= user && r.1 <= reference
    ensures Gap(|r.0|, |r.1|) <= coarseBand
    ensures r.2 ==> |r.0| == |r.1|
  {
    var n, m := |user|, |reference|;
    if Gap(n, m) <= coarseBand then (user, reference, false)
    else if m > n then (user, reference[..n], true)
    else (user[..m], reference, true)
  }

  datatype Attempt = Attempt(fine: WarpingPath, coarse: WarpingPath, lengthMismatch: bool)

  datatype Levels = Levels(stride: nat, coarseBand: nat, refineBand: nat)

  function CoarseGrid<F>(user: seq<F>, reference: seq<F>, dist: (F, F) -> real, lv: Levels): (g: Grid<F>)
    requires lv.stride >= 1
    ensures g.Valid()
  {
    var (u, r, _) := CropToOverlap(Strided(user, lv.stride), Strided(reference, lv.stride), lv.coarseBand);
    Grid(u, r, dist, Diagonal(|u|), lv.coarseBand)
  }

  function Mismatched<F>(user: seq<F>, reference: seq<F>, lv: Levels): bool
    requires lv.stride >= 1
  {
    CropToOverlap(Strided(user, lv.stride), Strided(reference, lv.stride), lv.coarseBand).2
  }

  function FineGrid<F>(user: seq<F>, reference: seq<F>, dist: (F, F) -> real, lv: Levels,
                       coarse: WarpingPath): (g: Grid<F>)
    requires lv.stride >= 1 && |coarse.index1| == |coarse.index2| > 0
    ensures g.Valid()
  {
    var c := CoarseGrid(user, reference, dist, lv);
    var keep := Min(|c.a|, |c.b|) * lv.stride;
    var u := if Mismatched(user, reference, lv) then Take(user, keep) else user;
    var r := if Mismatched(user, reference, lv) then Take(reference, keep) else reference;
    var ts := ProjectedTimes(coarse, lv.stride as real * PITCH_HOP_SECONDS, PITCH_HOP_SECONDS, |u|);
    Grid(u, r, dist, RefinedCenter(ts, PITCH_HOP_SECONDS, |r|), lv.refineBand)
  }

  /** What one attempt against `reference` (already cut at its start offset) returns or raises. */
  function AttemptOutcome<F>(user: seq<F>, reference: seq<F>, dist: (F, F) -> real,
                             lv: Levels): Result<Attempt, AlignError>
    requires lv.stride >= 1
  {
    match Outcome(CoarseGrid(user, reference, dist, lv))
    case Err(e) => Err(e)
    case Ok(coarse) =>
      match Outcome(FineGrid(user, reference, dist, lv, coarse))
      case Err(e) => Err(e)
      case Ok(fine) => Ok(Attempt(fine, coarse, Mismatched(user, reference, lv)))
  }

  method CoarsePass<F>(user: seq<F>, reference: seq<F>, dist: (F, F) -> real, lv: Levels)
    returns (r: Result<WarpingPath, AlignError>, lengthMismatch: bool, keepFrames: nat)
    requires lv.stride >= 1
    ensures r == Outcome(CoarseGrid(user, reference, dist, lv))
    ensures lengthMismatch == Mismatched(user, reference, lv)
    ensures var g := CoarseGrid(user, reference, dist, lv); keepFrames == Min(|g.a|, |g.b|) * lv.stride
  {
    hide Outcome;
    var (croppedUser, croppedReference, mismatch) :=
      CropToOverlap(Strided(user, lv.stride), Strided(reference, lv.stride), lv.coarseBand);
    r := BandedDtw(croppedUser, croppedReference, dist, lv.coarseBand, None);
    lengthMismatch, keepFrames := mismatch, Min(|croppedUser|, |croppedReference|) * lv.stride;
  }

  method FinePass<F>(user: seq<F>, reference: seq<F>, dist: (F, F) -> real, lv: Levels, coarse: WarpingPath)
    returns (r: Result<WarpingPath, AlignError>)
    requires |coarse.index1| == |coarse.index2| > 0
    ensures var ts := ProjectedTimes(coarse, lv.stride as real * PITCH_HOP_SECONDS, PITCH_HOP_SECONDS, |user|);
            r == Outcome(Grid(user, reference, dist, RefinedCenter(ts, PITCH_HOP_SECONDS, |reference|), lv.refineBand))
  {
    var center := RefineCenter(coarse, lv.stride as real * PITCH_HOP_SECONDS, PITCH_HOP_SECONDS, |user|, |reference|);
    r := BandedDtw(user, reference, dist, lv.refineBand, Some(center[..]));
  }

  method AttemptAlign<F>(user: seq<F>, reference: seq<F>, dist: (F, F) -> real, offsetFrames: nat, lv: Levels)
    returns (r: Result<Attempt, AlignError>)
    requires lv.stride >= 1
    ensures r == AttemptOutcome(user, Skip(reference, offsetFrames), dist, lv)
  {
    hide Outcome, ProjectedTimes, RefinedCenter, Strided;
    var offsetReference := Skip(reference, offsetFrames);
    var coarse, lengthMismatch, keepFrames := CoarsePass(user, offsetReference, dist, lv);
    if coarse.Err? {
      return Err(coarse.error);
    }
    var fineUser, fineReference := user, offsetReference;
    if lengthMismatch {
      fineUser, fineReference := Take(fineUser, keepFrames), Take(fineReference, keepFrames);
    }
    var fine := FinePass(fineUser, fineReference, dist, lv, coarse.value);
    if fine.Err? {
      return Err(fine.error);
    }
    return Ok(Attempt(fine.value, coarse.value, lengthMismatch));
  }

  // ---------------------------------------------------------------- start-offset search

  /** Total distance of `a[..count]` to `b[k..k + count]`, frame by frame. */
  function UnwarpedTotal<F>(a: seq<F>, b: seq<F>, dist: (F, F) -> real, k: nat, count: nat): real
    requires count <= |a| && k + count <= |b|
  {
    if count == 0 then 0.0
    else UnwarpedTotal(a, b, dist, k, count - 1) + dist(a[count - 1], b[k + count - 1])
  }

  /** The mean unwarped distance at start offset `k`, infinite when no reference frame is left. */
  function OffsetScore<F>(a: seq<F>, b: seq<F>, dist: (F, F) -> real, k: nat): Cost {
    var count := Min(|a|, |b| - k);
    if count <= 0 then Inf else Fin(UnwarpedTotal(a, b, dist, k, count) / count as real)
  }

  function OffsetScores<F>(a: seq<F>, b: seq<F>, dist: (F, F) -> real, maxOffset: nat): (s: seq<Cost>)
    ensures |s| == maxOffset + 1 && forall k :: 0 <= k <= maxOffset ==> s[k] == OffsetScore(a, b, dist, k)
  {
    seq(maxOffset + 1, k requires k >= 0 => OffsetScore(a, b, dist, k))
  }

  method StartOffsetScoresKernel<F>(a: seq<F>, b: seq<F>, dist: (F, F) -> real, maxOffset: nat)
    returns (scores: array<Cost>)
    ensures scores[..] == OffsetScores(a, b, dist, maxOffset)
  {
    scores := new Cost[maxOffset + 1](_ => Inf);
    for k := 0 to maxOffset + 1
      invariant forall j :: 0 <= j <= maxOffset ==> scores[j] == if j < k then OffsetScore(a, b, dist, j) else Inf
    {
      var count := Min(|a|, |b| - k);
      if count > 0 {
        var total := 0.0;
        for i := 0 to count
          invariant total == UnwarpedTotal(a, b, dist, k, i)
        {
          total := total + dist(a[i], b[k + i]);
        }
        scores[k] := Fin(total / count as real);
      }
    }
  }

  /** Any order `np.argsort` may return: every index appears once, scores never decrease along it; the
      order of equal scores is not specified. */
  ghost predicate IsArgsort(scores: seq<Cost>, order: seq<nat>) {
    && |order| == |scores|
    && (forall k :: 0 <= k < |order| ==> order[k] < |scores|)
    && (forall k :: 0 <= k < |scores| ==> k in order)
    && (forall i, j :: 0 <= i < j < |order| ==> order[i] != order[j])
    && (forall i, j :: 0 <= i <= j < |order| ==> AtMost(scores[order[i]], scores[order[j]]))
  }

  function MaxOffset<F>(reference: seq<F>): int {
    Min(MAX_OFFSET_FRAMES, |reference| - 1)
  }

  /** The attempt at each start offset. */
  function Attempts<F>(user: seq<F>, reference: seq<F>, dist: (F, F) -> real,
                       lv: Levels): nat -> Result<Attempt, AlignError>
    requires lv.stride >= 1
  {
    (k: nat) => AttemptOutcome(user, Skip(reference, k), dist, lv)
  }

  /** The verification loop over the remaining candidates; exhausting them re-raises `original`. */
  function SearchOutcome(attempts: nat -> Result<Attempt, AlignError>, scores: seq<Cost>, candidates: seq<nat>,
                         original: AlignError): Result<(nat, Attempt), AlignError>
    requires forall k :: 0 <= k < |candidates| ==> candidates[k] < |scores|
  {
    if candidates == [] then Err(original)
    else
      var rest := SearchOutcome(attempts, scores, candidates[1..], original);
      var offset := candidates[0];
      if offset == 0 || scores[offset].Inf? then rest
      else match attempts(offset)
        case Err(AlignmentFailed(_)) => rest
        case Err(AlignmentTooLarge) => Err(AlignmentTooLarge)
        case Ok(attempt) =>
          if attempt.fine.normalizedDistance <= ALIGN_PITCH_MAX_NORMALIZED_DISTANCE then Ok((offset, attempt)) else rest
  }

  method FindReferenceStartOffset<F>(user: seq<F>, reference: seq<F>, dist: (F, F) -> real, lv: Levels,
                                     original: AlignError, order: seq<nat>)
    returns (r: Result<(nat, Attempt), AlignError>)
    requires lv.stride >= 1
    requires MaxOffset(reference) >= 1 ==> IsArgsort(OffsetScores(user, reference, dist, MaxOffset(reference)), order)
    ensures r == if MaxOffset(reference) < 1 then Err(original)
                 else SearchOutcome(Attempts(user, reference, dist, lv),
                                    OffsetScores(user, reference, dist, MaxOffset(reference)),
                                    Take(order, ALIGN_START_OFFSET_CANDIDATE_COUNT), original)
  {
    hide AttemptOutcome, OffsetScore;
    var maxOffset := MaxOffset(reference);
    if maxOffset < 1 {
      return Err(original);
    }
    var scored := StartOffsetScoresKernel(user, reference, dist, maxOffset);
    var scores := scored[..];
    var candidates := Take(order, ALIGN_START_OFFSET_CANDIDATE_COUNT);
    ghost var attempts := Attempts(user, reference, dist, lv);
    for c := 0 to |candidates|
      invariant SearchOutcome(attempts, scores, candidates, original)
                == SearchOutcome(attempts, scores, candidates[c..], original)
    {
      assert candidates[c..][1..] == candidates[c + 1..];
      var offset := candidates[c];
      if offset == 0 || scores[offset].Inf? {
        continue;
      }
      var attempt := AttemptAlign(user, reference, dist, offset, lv);
      assert attempt == attempts(offset);
      if attempt.Err? {
        if attempt.error.AlignmentFailed? {
          continue;
        }
        return Err(attempt.error);
      }
      if attempt.value.fine.normalizedDistance <= ALIGN_PITCH_MAX_NORMALIZED_DISTANCE {
        return Ok((offset, attempt.value));
      }
    }
    return Err(original);
  }

  // ---------------------------------------------------------------- accept or reject

  /** What the direct attempt leaves to handle: an accepted alignment, or the failure that starts
      the search. */
  function Judge(direct: Result<Attempt, AlignError>): Result<Attempt, AlignError> {
    match direct
    case Err(e) => Err(e)
    case Ok(attempt) =>
      var d := attempt.fine.normalizedDistance;
      if d > ALIGN_PITCH_MAX_NORMALIZED_DISTANCE then Err(AlignmentFailed(OverCeiling(d))) else Ok(attempt)
  }

  /** The start offset and alignment the stage accepts, or the error it raises. */
  function StageOutcome<F>(user: seq<F>, reference: seq<F>, dist: (F, F) -> real, lv: Levels, order: seq<nat>)
    : Result<(nat, Attempt), AlignError>
    requires lv.stride >= 1
    requires MaxOffset(reference) >= 1 ==> |order| == MaxOffset(reference) + 1
    requires forall k :: 0 <= k < |order| ==> order[k] <= MaxOffset(reference)
  {
    match Judge(AttemptOutcome(user, reference, dist, lv))
    case Ok(attempt) => Ok((0, attempt))
    case Err(AlignmentTooLarge) => Err(AlignmentTooLarge)
    case Err(failure) =>
      if MaxOffset(reference) < 1 then Err(failure)
      else SearchOutcome(Attempts(user, reference, dist, lv),
                         OffsetScores(user, reference, dist, MaxOffset(reference)),
                         Take(order, ALIGN_START_OFFSET_CANDIDATE_COUNT), failure)
  }

  method RunAlignStage<F>(user: seq<F>, reference: seq<F>, dist: (F, F) -> real, order: seq<nat>)
    returns (r: Result<(nat, Attempt), AlignError>)
    requires MaxOffset(reference) >= 1 ==> IsArgsort(OffsetScores(user, reference, dist, MaxOffset(reference)), order)
    requires MaxOffset(reference) < 1 ==> order == []
    ensures r == StageOutcome(user, reference, dist, Levels(COARSE_STRIDE, COARSE_BAND, REFINE_BAND), order)
  {
    var lv := Levels(COARSE_STRIDE, COARSE_BAND, REFINE_BAND);
    assert Skip(reference, 0) == reference;
    var direct := AttemptAlign(user, reference, dist, 0, lv);
    if direct.Ok? && direct.value.fine.normalizedDistance > ALIGN_PITCH_MAX_NORMALIZED_DISTANCE {
      direct := Err(AlignmentFailed(OverCeiling(direct.value.fine.normalizedDistance)));
    }
    if direct.Ok? {
      return Ok((0, direct.value));
    }
    if direct.error.AlignmentTooLarge? {
      return Err(direct.error);
    }
    r := FindReferenceStartOffset(user, reference, dist, lv, direct.error, order);
  }
}
