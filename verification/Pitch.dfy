/** Pitch comparison and scoring (worker/src/vocalcoach/dsp/pitch_scoring.py, pipeline/stages/pitch.py)
    and the key-shift correction on top of it (pipeline/stages/key_normalization.py). */
module Pitch {
  import opened Basics
  import opened Dtw
  import opened DtwTheorems
  import opened TimeMaps
  import opened Align
  import opened AlignTheorems

  /** A frame's fundamental frequency, absent when unvoiced. */
  type Hz = Option<real>

  const PITCH_SCORE_CENTS_FOR_ZERO := 100.0

  // ---------------------------------------------------------------- comparison

  function At(s: seq<Hz>, k: int): Hz {
    if 0 <= k < |s| then s[k] else None
  }

  function Deviation(cents: (real, real) -> real, user: Hz, reference: Hz): Option<real> {
    if user.None? || reference.None? then None else Some(cents(user.value, reference.value))
  }

  /** The reference value each recording frame is compared with. */
  function AlignedReference(n: nat, reference: seq<Hz>, tm: TimeMap, hop: real): (r: seq<Hz>)
    requires tm.Valid() && hop > 0.0
    ensures |r| == n
    ensures forall i :: 0 <= i < n ==> r[i] == At(reference, FrameAt(tm.UserToReference(TimeOf(i, hop)), hop))
  {
    seq(n, i requires 0 <= i < n => At(reference, FrameAt(tm.UserToReference(TimeOf(i, hop)), hop)))
  }

  function Deviations(cents: (real, real) -> real, user: seq<Hz>, aligned: seq<Hz>): (d: seq<Option<real>>)
    requires |user| == |aligned|
    ensures |d| == |user|
    ensures forall i :: 0 <= i < |d| ==> d[i] == Deviation(cents, user[i], aligned[i])
  {
    seq(|user|, i requires 0 <= i < |user| => Deviation(cents, user[i], aligned[i]))
  }

  method AlignAndCompare(cents: (real, real) -> real, user: seq<Hz>, reference: seq<Hz>, tm: TimeMap, hop: real)
    returns (aligned: seq<Hz>, deviations: seq<Option<real>>)
    requires tm.Valid() && hop > 0.0
    ensures aligned == AlignedReference(|user|, reference, tm, hop)
    ensures deviations == Deviations(cents, user, aligned)
  {
    hide Interp, FrameAt;
    aligned, deviations := [], [];
    for i := 0 to |user|
      invariant |aligned| == |deviations| == i
      invariant forall k :: 0 <= k < i ==> aligned[k] == At(reference, FrameAt(tm.UserToReference(TimeOf(k, hop)), hop))
      invariant forall k :: 0 <= k < i ==> deviations[k] == Deviation(cents, user[k], aligned[k])
    {
      var frame := FrameAt(tm.UserToReference(TimeOf(i, hop)), hop);
      var value := if 0 <= frame < |reference| then reference[frame] else None;
      aligned := aligned + [value];
      if user[i].None? || value.None? {
        deviations := deviations + [None];
      } else {
        deviations := deviations + [Some(cents(user[i].value, value.value))];
      }
    }
  }

  // ---------------------------------------------------------------- score

  /** The compared frames, in order. */
  function Present(d: seq<Option<real>>): seq<real> {
    if d == [] then []
    else match d[0]
      case None => Present(d[1..])
      case Some(c) => [c] + Present(d[1..])
  }

  /** Total distance of the values of `s` from `c`. */
  function SpreadAround(s: seq<real>, c: real): real {
    if s == [] then 0.0 else Abs(s[0] - c) + SpreadAround(s[1..], c)
  }

  function MeanAbs(s: seq<real>): real {
    if s == [] then 0.0 else SpreadAround(s, 0.0) / |s| as real
  }

  /** 100 at no deviation, falling linearly to 0 at a semitone, to one decimal. */
  function ScoreFromMeanAbsCents(mean: real): real {
    var ratio := mean / PITCH_SCORE_CENTS_FOR_ZERO;
    var fraction := if ratio < 1.0 then ratio else 1.0;
    RoundHalfEven(100.0 * (1.0 - fraction) * 10.0) as real / 10.0
  }

  function PitchScore(d: seq<Option<real>>): real {
    if Present(d) == [] then 0.0 else ScoreFromMeanAbsCents(MeanAbs(Present(d)))
  }

  lemma LowerMeanScoresHigher(x: real, y: real)
    requires x <= y
    ensures ScoreFromMeanAbsCents(y) <= ScoreFromMeanAbsCents(x)
  {
    DivideBoth(x, y, PITCH_SCORE_CENTS_FOR_ZERO);
    var fx := if x / PITCH_SCORE_CENTS_FOR_ZERO < 1.0 then x / PITCH_SCORE_CENTS_FOR_ZERO else 1.0;
    var fy := if y / PITCH_SCORE_CENTS_FOR_ZERO < 1.0 then y / PITCH_SCORE_CENTS_FOR_ZERO else 1.0;
    RoundMonotone(100.0 * (1.0 - fy) * 10.0, 100.0 * (1.0 - fx) * 10.0);
  }

  lemma {:induction false} AllZeroPresent(d: seq<Option<real>>)
    requires forall i :: 0 <= i < |d| ==> d[i] == None || d[i] == Some(0.0)
    ensures Present(d) == [] <==> forall i :: 0 <= i < |d| ==> d[i] == None
    ensures SpreadAround(Present(d), 0.0) == 0.0
  {
    if d != [] {
      AllZeroPresent(d[1..]);
      if d[0] == None {
        assert forall i :: 0 < i < |d| ==> d[i] == d[1..][i - 1];
      } else {
        assert ([0.0] + Present(d[1..]))[1..] == Present(d[1..]);
      }
    }
  }

  // ---------------------------------------------------------------- a perfect take, end to end

  lemma IdentityReadsSameFrame(n: nat, hop: real, i: nat)
    requires hop > 0.0 && i < n
    ensures var tm := FromWarpingPath(Identity(n), Identity(n), hop);
            tm.Valid() && FrameAt(tm.UserToReference(TimeOf(i, hop)), hop) == i
  {
    hide Interp, TimeOf;
    var xp := Times(Identity(n), hop);
    SortedTimes(Identity(n), hop);
    TimeOrder(0, i, hop);
    TimeOrder(i, n - 1, hop);
    InterpIdentity(TimeOf(i, hop), xp);
    FrameAtExact(i, hop);
  }

  predicate AllUnvoiced(s: seq<Hz>) {
    forall i :: 0 <= i < |s| ==> s[i] == None
  }

  /** Through the frame-for-frame map every frame is compared with the same frame. */
  lemma IdentityComparison(n: nat, reference: seq<Hz>)
    requires n > 0
    ensures var tm := FromWarpingPath(Identity(n), Identity(n), PITCH_HOP_SECONDS);
            && tm.Valid()
            && forall i :: 0 <= i < n ==> AlignedReference(n, reference, tm, PITCH_HOP_SECONDS)[i] == At(reference, i)
  {
    hide Interp, FrameAt, TimeOf;
    forall i | 0 <= i < n
      ensures var tm := FromWarpingPath(Identity(n), Identity(n), PITCH_HOP_SECONDS);
              AlignedReference(n, reference, tm, PITCH_HOP_SECONDS)[i] == At(reference, i)
    {
      IdentityReadsSameFrame(n, PITCH_HOP_SECONDS, i);
    }
  }

  lemma ZeroDeviationScore()
    ensures ScoreFromMeanAbsCents(0.0) == 100.0
  {
  }

  lemma SelfDeviations(take: seq<Hz>, cents: (real, real) -> real)
    requires forall x :: cents(x, x) == 0.0
    ensures var d := Deviations(cents, take, take);
            forall i :: 0 <= i < |d| ==> d[i] == if take[i] == None then None else Some(0.0)
  {
    var d := Deviations(cents, take, take);
    forall i | 0 <= i < |d|
      ensures d[i] == if take[i] == None then None else Some(0.0)
    {
      if take[i].Some? {
        var hz := take[i].value;
        assert cents(hz, hz) == 0.0;
      }
    }
  }

  lemma SelfComparisonScore(take: seq<Hz>, cents: (real, real) -> real)
    requires forall x :: cents(x, x) == 0.0
    ensures PitchScore(Deviations(cents, take, take)) == if AllUnvoiced(take) then 0.0 else 100.0
  {
    hide ScoreFromMeanAbsCents, Deviation;
    var d := Deviations(cents, take, take);
    SelfDeviations(take, cents);
    AllZeroPresent(d);
    ZeroDeviationScore();
    assert AllUnvoiced(take) <==> forall i :: 0 <= i < |d| ==> d[i] == None;
  }

  /** A take identical to its reference, however much of it is voiced: the alignment is accepted at offset 0,
      every voiced frame is compared with itself, and the score is 100 (0 when no frame is voiced). */
  lemma PerfectTakeIsItsOwnMatch(take: seq<Hz>, dist: (Hz, Hz) -> real, cents: (real, real) -> real,
                                 lv: Levels, order: seq<nat>)
    requires take != [] && IsDistance(dist) && (forall x :: cents(x, x) == 0.0) && 1 <= lv.stride <= lv.refineBand
    requires !TooManyCells(|Strided(take, lv.stride)|, lv.coarseBand) && !TooManyCells(|take|, lv.refineBand)
    requires MaxOffset(take) >= 1 ==> |order| == MaxOffset(take) + 1
    requires forall k :: 0 <= k < |order| ==> order[k] <= MaxOffset(take)
    ensures StageOutcome(take, take, dist, lv, order).Ok?
    ensures var (offset, attempt) := StageOutcome(take, take, dist, lv, order).value;
            var tm := FromWarpingPath(attempt.fine.index1, attempt.fine.index2, PITCH_HOP_SECONDS);
            && offset == 0 && tm.Valid()
            && var aligned := AlignedReference(|take|, take, tm, PITCH_HOP_SECONDS);
               && aligned == take
               && PitchScore(Deviations(cents, take, aligned)) == if AllUnvoiced(take) then 0.0 else 100.0
  {
    hide StageOutcome, PitchScore, AllUnvoiced;
    PerfectTakeAccepted(take, dist, lv, order);
    IdentityComparison(|take|, take);
    SelfComparisonScore(take, cents);
    var tm := FromWarpingPath(Identity(|take|), Identity(|take|), PITCH_HOP_SECONDS);
    assert AlignedReference(|take|, take, tm, PITCH_HOP_SECONDS) == take;
  }

  // ---------------------------------------------------------------- the whole align stage

  const MIN_VOICED_FRACTION := 0.05

  function VoicedCount(s: seq<Hz>): (n: nat)
    ensures n <= |s| && (n == 0 <==> AllUnvoiced(s))
  {
    if s == [] then 0
    else
      assert AllUnvoiced(s) <==> s[0] == None && AllUnvoiced(s[1..]) by { UnvoicedFrames(s); }
      VoicedCount(s[1..]) + if s[0].Some? then 1 else 0
  }

  lemma UnvoicedFrames(s: seq<Hz>)
    requires s != []
    ensures AllUnvoiced(s) <==> s[0] == None && AllUnvoiced(s[1..])
  {
    assert s == [s[0]] + s[1..];
  }

  function VoicedFraction(s: seq<Hz>): real {
    if s == [] then 0.0 else VoicedCount(s) as real / |s| as real
  }

  lemma HeardIsVoiced(s: seq<Hz>)
    requires VoicedFraction(s) >= MIN_VOICED_FRACTION
    ensures s != [] && !AllUnvoiced(s)
  {
    assert s != [] && VoicedCount(s) == 0 ==> VoicedFraction(s) == 0.0;
  }

  datatype StageError = NoVoiceDetected | Rejected(error: AlignError)

  /** What the align stage returns or raises: too little voice is rejected before anything is aligned. */
  function AlignStage(user: seq<Hz>, reference: seq<Hz>, dist: (Hz, Hz) -> real, lv: Levels, order: seq<nat>)
    : Result<(nat, Attempt), StageError>
    requires lv.stride >= 1
    requires MaxOffset(reference) >= 1 ==> |order| == MaxOffset(reference) + 1
    requires forall k :: 0 <= k < |order| ==> order[k] <= MaxOffset(reference)
  {
    if VoicedFraction(user) < MIN_VOICED_FRACTION then Err(NoVoiceDetected)
    else match StageOutcome(user, reference, dist, lv, order)
      case Err(e) => Err(Rejected(e))
      case Ok(accepted) => Ok(accepted)
  }

  method RunAlign(user: seq<Hz>, reference: seq<Hz>, dist: (Hz, Hz) -> real, order: seq<nat>)
    returns (r: Result<(nat, Attempt), StageError>)
    requires MaxOffset(reference) >= 1 ==> IsArgsort(OffsetScores(user, reference, dist, MaxOffset(reference)), order)
    requires MaxOffset(reference) < 1 ==> order == []
    ensures r == AlignStage(user, reference, dist, Levels(COARSE_STRIDE, COARSE_BAND, REFINE_BAND), order)
  {
    if VoicedFraction(user) < MIN_VOICED_FRACTION {
      return Err(NoVoiceDetected);
    }
    var accepted := RunAlignStage(user, reference, dist, order);
    if accepted.Err? {
      return Err(Rejected(accepted.error));
    }
    return Ok(accepted.value);
  }

  /** Every frame is compared with the equal frame, and the score is 100. */
  ghost predicate IsPerfectMatch(take: seq<Hz>, attempt: Attempt, cents: (real, real) -> real) {
    && |attempt.fine.index1| == |attempt.fine.index2|
    && var tm := FromWarpingPath(attempt.fine.index1, attempt.fine.index2, PITCH_HOP_SECONDS);
       && tm.Valid()
       && var aligned := AlignedReference(|take|, take, tm, PITCH_HOP_SECONDS);
          aligned == take && PitchScore(Deviations(cents, take, aligned)) == 100.0
  }

  /** A take identical to its reference: unless it is rejected for having almost no voice, the stage accepts it
      at offset 0, every voiced frame is compared with itself, and the score is 100. */
  lemma PerfectTakeScores100(take: seq<Hz>, dist: (Hz, Hz) -> real, cents: (real, real) -> real,
                             lv: Levels, order: seq<nat>)
    requires IsDistance(dist) && (forall x :: cents(x, x) == 0.0) && 1 <= lv.stride <= lv.refineBand
    requires !TooManyCells(|Strided(take, lv.stride)|, lv.coarseBand) && !TooManyCells(|take|, lv.refineBand)
    requires MaxOffset(take) >= 1 ==> |order| == MaxOffset(take) + 1
    requires forall k :: 0 <= k < |order| ==> order[k] <= MaxOffset(take)
    ensures var r := AlignStage(take, take, dist, lv, order);
            if VoicedFraction(take) < MIN_VOICED_FRACTION then r == Err(NoVoiceDetected)
            else r.Ok? && r.value.0 == 0 && IsPerfectMatch(take, r.value.1, cents)
  {
    hide StageOutcome, PitchScore, AllUnvoiced, TooManyCells, Strided, FromWarpingPath, AlignedReference;
    if VoicedFraction(take) >= MIN_VOICED_FRACTION {
      HeardIsVoiced(take);
      PerfectTakeAccepted(take, dist, lv, order);
      PerfectTakeIsItsOwnMatch(take, dist, cents, lv, order);
    }
  }

  // ---------------------------------------------------------------- key normalisation

  function Insert(x: real, s: seq<real>): (r: seq<real>)
    ensures multiset(r) == multiset{x} + multiset(s)
  {
    if s == [] || x <= s[0] then [x] + s
    else
      assert s == [s[0]] + s[1..];
      [s[0]] + Insert(x, s[1..])
  }

  function Ordered(s: seq<real>): (r: seq<real>)
    ensures multiset(r) == multiset(s) && |r| == |s|
  {
    if s == [] then []
    else
      assert s == [s[0]] + s[1..];
      var r := Insert(s[0], Ordered(s[1..]));
      assert |multiset(r)| == |multiset(s)|;
      r
  }

  lemma {:induction false} InsertSorted(x: real, s: seq<real>)
    requires Sorted(s)
    ensures Sorted(Insert(x, s))
    ensures |s| > 0 ==> Insert(x, s)[0] == if x <= s[0] then x else s[0]
  {
    if s != [] && !(x <= s[0]) {
      InsertSorted(x, s[1..]);
      var rest := Insert(x, s[1..]);
      assert |s| > 1 ==> s[0] <= s[1];
      PrependSorted(s[0], rest);
    } else {
      PrependSorted(x, s);
    }
  }

  lemma PrependSorted(x: real, s: seq<real>)
    requires Sorted(s) && (s != [] ==> x <= s[0])
    ensures Sorted([x] + s)
  {
    forall i, j | 0 <= i <= j < |s| + 1
      ensures ([x] + s)[i] <= ([x] + s)[j]
    {
      if i == 0 && j > 0 {
        assert s[0] <= s[j - 1];
      }
    }
  }

  lemma {:induction false} OrderedIsSorted(s: seq<real>)
    ensures Sorted(Ordered(s))
  {
    if s != [] {
      OrderedIsSorted(s[1..]);
      InsertSorted(s[0], Ordered(s[1..]));
    }
  }

  lemma {:induction false} InsertSpread(x: real, s: seq<real>, c: real)
    ensures SpreadAround(Insert(x, s), c) == Abs(x - c) + SpreadAround(s, c)
  {
    if s != [] && !(x <= s[0]) {
      InsertSpread(x, s[1..], c);
      assert ([s[0]] + Insert(x, s[1..]))[1..] == Insert(x, s[1..]);
    } else {
      assert ([x] + s)[1..] == s;
    }
  }

  lemma {:induction false} OrderedSpread(s: seq<real>, c: real)
    ensures SpreadAround(Ordered(s), c) == SpreadAround(s, c)
  {
    if s != [] {
      OrderedSpread(s[1..], c);
      InsertSpread(s[0], Ordered(s[1..]), c);
    }
  }

  /** `np.median` of sorted values: the middle one, or the mean of the middle two. */
  function SortedMedian(s: seq<real>): real
    requires s != []
  {
    if |s| % 2 == 1 then s[|s| / 2] else (s[|s| / 2 - 1] + s[|s| / 2]) / 2.0
  }

  function Median(s: seq<real>): real
    requires s != []
  {
    SortedMedian(Ordered(s))
  }

  lemma PortionInRange(share: real, top: real)
    requires top >= 0.0 && 0.0 <= share <= 1.0
    ensures 0.0 <= share * top <= top
  {
    assert (1.0 - share) * top >= 0.0;
    assert (1.0 - share) * top == top - share * top;
  }

  function Portion(share: real, top: real): (r: real)
    requires top >= 0.0 && 0.0 <= share <= 1.0
    ensures 0.0 <= r <= top
  {
    PortionInRange(share, top);
    share * top
  }

  /** `np.percentile`: linear between the two nearest ranks. */
  function Percentile(s: seq<real>, p: real): real
    requires s != [] && 0.0 <= p <= 100.0
  {
    var r := Ordered(s);
    var rank := Portion(p / 100.0, (|r| - 1) as real);
    var lo := rank.Floor;
    if lo + 1 < |r| then r[lo] + (rank - lo as real) * (r[lo + 1] - r[lo]) else r[lo]
  }

  lemma {:induction false} SpreadAppend(s: seq<real>, t: seq<real>, c: real)
    ensures SpreadAround(s + t, c) == SpreadAround(s, c) + SpreadAround(t, c)
  {
    if s == [] {
      assert s + t == t;
    } else {
      SpreadAppend(s[1..], t, c);
      assert (s + t)[1..] == s[1..] + t;
    }
  }

  lemma SpreadEnds(s: seq<real>, c: real)
    requires |s| >= 2
    ensures SpreadAround(s, c) == Abs(s[0] - c) + SpreadAround(s[1..|s| - 1], c) + Abs(s[|s| - 1] - c)
  {
    var last := [s[|s| - 1]];
    assert s[1..] == s[1..|s| - 1] + last;
    SpreadAppend(s[1..|s| - 1], last, c);
    assert SpreadAround(last, c) == Abs(last[0] - c) + SpreadAround(last[1..], c);
  }

  lemma MedianInside(s: seq<real>)
    requires s != [] && Sorted(s)
    ensures s[0] <= SortedMedian(s) <= s[|s| - 1]
  {
  }

  /** The median of sorted values minimises their total distance. */
  lemma {:induction false} MedianMinimises(s: seq<real>, c: real)
    requires s != [] && Sorted(s)
    ensures SpreadAround(s, SortedMedian(s)) <= SpreadAround(s, c)
    decreases |s|
  {
    if |s| == 1 {
      assert s[1..] == [];
    } else {
      var mid, med := s[1..|s| - 1], SortedMedian(s);
      SpreadEnds(s, c);
      SpreadEnds(s, med);
      MedianInside(s);
      if mid != [] {
        assert SortedMedian(mid) == med;
        MedianMinimises(mid, c);
      }
    }
  }

  /** The stage's thresholds, in semitones. */
  datatype KeyLimits = KeyLimits(minSemitones: real, maxIqrSemitones: real, maxSemitones: real)

  datatype KeyShift = KeyShift(applied: bool, medianSemitones: real, iqrSemitones: real, outOfRange: bool,
                               adjustedScore: Option<real>, adjustedMeanAbsCents: Option<real>)

  const SEMITONE_CENTS := 100.0

  function Shifted(s: seq<real>, c: real): (r: seq<real>)
    ensures |r| == |s|
  {
    if s == [] then [] else [s[0] - c] + Shifted(s[1..], c)
  }

  function NormalizeKey(limits: KeyLimits, eligible: bool, deviations: seq<Option<real>>): KeyShift {
    var present := Present(deviations);
    if present == [] then KeyShift(false, 0.0, 0.0, false, None, None)
    else
      var median := Median(present) / SEMITONE_CENTS;
      var iqr := (Percentile(present, 75.0) - Percentile(present, 25.0)) / SEMITONE_CENTS;
      var outOfRange := eligible && Abs(median) > limits.maxSemitones;
      var applied := eligible && !outOfRange && Abs(median) >= limits.minSemitones && iqr <= limits.maxIqrSemitones;
      if !applied then KeyShift(false, median, iqr, outOfRange, None, None)
      else
        var mean := MeanAbs(Shifted(present, median * SEMITONE_CENTS));
        KeyShift(true, median, iqr, outOfRange, Some(ScoreFromMeanAbsCents(mean)), Some(mean))
  }

  lemma {:induction false} ShiftedSpread(s: seq<real>, c: real)
    ensures SpreadAround(Shifted(s, c), 0.0) == SpreadAround(s, c)
  {
    if s != [] {
      ShiftedSpread(s[1..], c);
      assert ([s[0] - c] + Shifted(s[1..], c))[1..] == Shifted(s[1..], c);
    }
  }

  /** Removing the median shift leaves no larger a mean deviation than removing any other shift. */
  lemma MedianShiftIsBest(s: seq<real>, c: real)
    requires s != []
    ensures MeanAbs(Shifted(s, Median(s))) <= MeanAbs(Shifted(s, c))
  {
    OrderedIsSorted(s);
    MedianMinimises(Ordered(s), c);
    OrderedSpread(s, c);
    OrderedSpread(s, Median(s));
    ShiftedSpread(s, c);
    ShiftedSpread(s, Median(s));
    DivideBoth(SpreadAround(s, Median(s)), SpreadAround(s, c), |s| as real);
  }

  /** Key normalisation never lowers pitch: an applied shift leaves the least mean deviation any
      shift could, hence at most the original mean and at least the original score. */
  lemma KeyShiftNeverLowersPitch(limits: KeyLimits, eligible: bool, d: seq<Option<real>>, c: real)
    requires NormalizeKey(limits, eligible, d).applied
    ensures var k, s := NormalizeKey(limits, eligible, d), Present(d);
            && s != [] && k.adjustedMeanAbsCents.Some? && k.adjustedScore.Some?
            && k.adjustedMeanAbsCents.value <= MeanAbs(Shifted(s, c))
            && k.adjustedMeanAbsCents.value <= MeanAbs(s)
            && k.adjustedScore.value >= PitchScore(d)
  {
    var s := Present(d);
    MedianShiftIsBest(s, c);
    MedianShiftIsBest(s, 0.0);
    ShiftedSpread(s, 0.0);
    assert Median(s) / SEMITONE_CENTS * SEMITONE_CENTS == Median(s);
    LowerMeanScoresHigher(MeanAbs(Shifted(s, Median(s))), MeanAbs(s));
  }

  predicate AllEqual(s: seq<real>, k: real) {
    forall i :: 0 <= i < |s| ==> s[i] == k
  }

  lemma OrderedAllEqual(s: seq<real>, k: real)
    requires AllEqual(s, k)
    ensures AllEqual(Ordered(s), k)
  {
    forall i | 0 <= i < |s|
      ensures Ordered(s)[i] == k
    {
      assert Ordered(s)[i] in multiset(Ordered(s));
      assert Ordered(s)[i] in s;
    }
  }

  lemma {:induction false} SpreadAllEqual(s: seq<real>, k: real)
    requires AllEqual(s, k)
    ensures SpreadAround(s, k) == 0.0
  {
    if s != [] {
      SpreadAllEqual(s[1..], k);
    }
  }

  /** A take transposed by a constant interval: the shift is applied exactly when transposition is
      eligible and the interval lies between the limits, and then the score is 100. */
  lemma TransposedTakeScores100(limits: KeyLimits, eligible: bool, d: seq<Option<real>>, k: real)
    requires Present(d) != [] && AllEqual(Present(d), k) && limits.maxIqrSemitones >= 0.0
    ensures var r := NormalizeKey(limits, eligible, d);
            && r.medianSemitones == k / SEMITONE_CENTS
            && (r.applied <==> eligible && limits.minSemitones <= Abs(k / SEMITONE_CENTS) <= limits.maxSemitones)
            && (r.applied ==> r.adjustedScore == Some(100.0))
  {
    hide ScoreFromMeanAbsCents;
    var s := Present(d);
    OrderedAllEqual(s, k);
    assert Median(s) == k;
    assert Percentile(s, 75.0) == Percentile(s, 25.0) == k by {
      FlatPercentile(s, k, 75.0);
      FlatPercentile(s, k, 25.0);
    }
    assert Median(s) / SEMITONE_CENTS * SEMITONE_CENTS == k;
    SpreadAllEqual(s, k);
    ShiftedSpread(s, k);
    ZeroDeviationScore();
  }

  lemma FlatPercentile(s: seq<real>, k: real, p: real)
    requires s != [] && AllEqual(s, k) && 0.0 <= p <= 100.0
    ensures Percentile(s, p) == k
  {
    OrderedAllEqual(s, k);
  }
}
