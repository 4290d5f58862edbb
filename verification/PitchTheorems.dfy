/** What the pitch score and the key shift are, in terms of the deviations themselves. */
module PitchTheorems {
  import opened Basics
  import opened Dtw
  import opened DtwTheorems
  import opened TimeMaps
  import opened Align
  import opened AlignTheorems
  import opened Pitch

  // ---------------------------------------------------------------- the score of a mean

  /** `score` is `exact` to a tenth: a whole number of tenths, and none is nearer. */
  predicate ToATenth(score: real, exact: real) {
    (score * 10.0).Floor as real == score * 10.0 && exact - 0.05 <= score <= exact + 0.05
  }

  /** A mean deviation of `mean` cents scores 100 less as many points, to a tenth; from a semitone on it scores 0. */
  lemma ScoreExactly(mean: real)
    requires mean >= 0.0
    ensures ToATenth(ScoreFromMeanAbsCents(mean), if mean <= 100.0 then 100.0 - mean else 0.0)
    ensures mean >= 100.0 ==> ScoreFromMeanAbsCents(mean) == 0.0
  {
    var ratio := mean / PITCH_SCORE_CENTS_FOR_ZERO;
    var tenths := 100.0 * (1.0 - (if ratio < 1.0 then ratio else 1.0)) * 10.0;
    assert tenths == if mean < 100.0 then 1000.0 - 10.0 * mean else 0.0;
    RoundNearest(tenths);
    RoundExact(0);
    assert ScoreFromMeanAbsCents(mean) * 10.0 == RoundHalfEven(tenths) as real;
  }

  // ---------------------------------------------------------------- the mean of the deviations

  lemma {:induction false} SpreadOfTwo(s: seq<real>, t: seq<real>)
    ensures SpreadAround(s + t, 0.0) == SpreadAround(s, 0.0) + SpreadAround(t, 0.0)
  {
    SpreadAppend(s, t, 0.0);
  }

  /** The mean absolute deviation is a mean: one value's own size, and of two lists the two means weighted by their
      lengths. Nothing else is both. */
  lemma MeanAbsExactly(s: seq<real>, t: seq<real>, x: real)
    ensures MeanAbs([x]) == Abs(x)
    ensures MeanAbs(s + t) * |s + t| as real == MeanAbs(s) * |s| as real + MeanAbs(t) * |t| as real
  {
    hide SpreadAround, MeanAbs;
    MeanOfOne(x);
    SpreadOfTwo(s, t);
    MeanTimesLength(s);
    MeanTimesLength(t);
    MeanTimesLength(s + t);
  }

  lemma MeanOfOne(x: real)
    ensures MeanAbs([x]) == Abs(x)
  {
    assert [x][1..] == [] && SpreadAround([], 0.0) == 0.0;
  }

  lemma MeanTimesLength(s: seq<real>)
    ensures MeanAbs(s) * |s| as real == SpreadAround(s, 0.0)
  {
    if s != [] { DivideExact(SpreadAround(s, 0.0), |s| as real); }
  }

  lemma {:induction false} SpreadWithin(s: seq<real>, lo: real, hi: real)
    requires forall i :: 0 <= i < |s| ==> lo <= Abs(s[i]) <= hi
    ensures lo * |s| as real <= SpreadAround(s, 0.0) <= hi * |s| as real
  {
    if s != [] {
      SpreadWithin(s[1..], lo, hi);
      assert lo * |s| as real == lo + lo * (|s| - 1) as real && hi * |s| as real == hi + hi * (|s| - 1) as real;
    }
  }

  lemma MeanAbsWithin(s: seq<real>, lo: real, hi: real)
    requires s != [] && forall i :: 0 <= i < |s| ==> lo <= Abs(s[i]) <= hi
    ensures lo <= MeanAbs(s) <= hi
  {
    SpreadWithin(s, lo, hi);
    MeanTimesLength(s);
    MeanWithin(SpreadAround(s, 0.0), |s|, MeanAbs(s), lo, hi);
  }

  /** The compared frames are those with a deviation, each once and in order. */
  lemma {:induction false} PresentExactly(d: seq<Option<real>>, e: seq<Option<real>>, x: real)
    ensures Present([None]) == [] && Present([Some(x)]) == [x]
    ensures Present(d + e) == Present(d) + Present(e)
  {
    PresentOne(x);
    if d == [] {
      assert d + e == e;
    } else {
      PresentExactly(d[1..], e, x);
      assert (d + e)[1..] == d[1..] + e && (d + e)[0] == d[0];
    }
  }

  lemma PresentOne(x: real)
    ensures Present([None]) == [] && Present([Some(x)]) == [x]
  {
    var none: seq<Option<real>>, one: seq<Option<real>> := [None], [Some(x)];
    assert none[1..] == [] && one[1..] == [];
  }

  lemma {:induction false} PresentWithin(d: seq<Option<real>>, lo: real, hi: real)
    requires forall i :: 0 <= i < |d| && d[i].Some? ==> lo <= Abs(d[i].value) <= hi
    ensures forall k :: 0 <= k < |Present(d)| ==> lo <= Abs(Present(d)[k]) <= hi
    ensures Present(d) == [] <==> forall i :: 0 <= i < |d| ==> d[i] == None
  {
    if d != [] {
      PresentWithin(d[1..], lo, hi);
      assert forall i :: 0 < i < |d| ==> d[i] == d[1..][i - 1];
    }
  }

  /** The pitch score of the deviations: 0 when nothing was compared, otherwise between the scores of the largest and
      the smallest deviation. */
  lemma PitchScoreWithin(d: seq<Option<real>>, lo: real, hi: real)
    requires 0.0 <= lo && forall i :: 0 <= i < |d| && d[i].Some? ==> lo <= Abs(d[i].value) <= hi
    ensures (forall i :: 0 <= i < |d| ==> d[i] == None) ==> PitchScore(d) == 0.0
    ensures (exists i :: 0 <= i < |d| && d[i].Some?) ==>
              ScoreFromMeanAbsCents(hi) <= PitchScore(d) <= ScoreFromMeanAbsCents(lo)
  {
    hide ScoreFromMeanAbsCents;
    PresentWithin(d, lo, hi);
    if Present(d) != [] {
      MeanAbsWithin(Present(d), lo, hi);
      LowerMeanScoresHigher(lo, MeanAbs(Present(d)));
      LowerMeanScoresHigher(MeanAbs(Present(d)), hi);
    }
  }

  /** A take that is off by `c` cents, sharp or flat, wherever it is compared scores 100 - c to a tenth, and 0 from a
      semitone on. */
  lemma ConstantlyOffScores(d: seq<Option<real>>, c: real)
    requires 0.0 <= c && forall i :: 0 <= i < |d| && d[i].Some? ==> Abs(d[i].value) == c
    requires exists i :: 0 <= i < |d| && d[i].Some?
    ensures ToATenth(PitchScore(d), if c <= 100.0 then 100.0 - c else 0.0)
    ensures c >= 100.0 ==> PitchScore(d) == 0.0
  {
    hide ScoreFromMeanAbsCents;
    PitchScoreWithin(d, c, c);
    ScoreExactly(c);
  }

  // ---------------------------------------------------------------- quartiles

  /** `v` is the `q`-th quartile of the sorted values: three quarters of the way between two neighbours are three
      parts of the one and one of the other. */
  ghost predicate IsQuartile(v: real, sorted: seq<real>, q: nat)
    requires sorted != []
  {
    var at, rest := q * (|sorted| - 1) / 4, q * (|sorted| - 1) % 4;
    && 0 <= at < |sorted| && (rest > 0 ==> at + 1 < |sorted|)
    && 4.0 * v == (4 - rest) as real * sorted[at] + if rest > 0 then rest as real * sorted[at + 1] else 0.0
  }

  lemma QuarterRank(q: nat, n: nat)
    requires q <= 4 && n > 0
    ensures var rank := Portion((25.0 * q as real) / 100.0, (n - 1) as real);
            && rank.Floor == q * (n - 1) / 4
            && 4.0 * (rank - rank.Floor as real) == (q * (n - 1) % 4) as real
            && 0 <= rank.Floor < n && (q * (n - 1) % 4 > 0 ==> rank.Floor + 1 < n)
  {
    var share := (25.0 * q as real) / 100.0;
    assert share == q as real / 4.0;
    var rank := Portion(share, (n - 1) as real);
    var whole, rest := q * (n - 1) / 4, q * (n - 1) % 4;
    assert q * (n - 1) == 4 * whole + rest;
    assert 4.0 * rank == q as real * (n - 1) as real == (q * (n - 1)) as real;
    assert rank == whole as real + rest as real / 4.0;
    assert q * (n - 1) <= 4 * (n - 1);
  }

  lemma QuartileAtRank(v: real, r: seq<real>, rank: real, q: nat)
    requires r != [] && 0 <= rank.Floor < |r| && rank.Floor == q * (|r| - 1) / 4
    requires 4.0 * (rank - rank.Floor as real) == (q * (|r| - 1) % 4) as real
    requires q * (|r| - 1) % 4 > 0 ==> rank.Floor + 1 < |r|
    requires v == if rank.Floor + 1 < |r|
                  then r[rank.Floor] + (rank - rank.Floor as real) * (r[rank.Floor + 1] - r[rank.Floor])
                  else r[rank.Floor]
    ensures IsQuartile(v, r, q)
  {
    var lo := rank.Floor;
    if lo + 1 < |r| { InterpolatedQuarter(r[lo], r[lo + 1], rank - lo as real, q * (|r| - 1) % 4); }
  }

  /** `np.percentile` at a quarter, a half and three quarters, by order statistics. */
  lemma QuartileExactly(s: seq<real>, q: nat)
    requires s != [] && q <= 4
    ensures IsQuartile(Percentile(s, 25.0 * q as real), Ordered(s), q)
  {
    hide Portion, Ordered, IsQuartile;
    var r := Ordered(s);
    QuarterRank(q, |r|);
    QuartileAtRank(Percentile(s, 25.0 * q as real), r, Portion((25.0 * q as real) / 100.0, (|r| - 1) as real), q);
  }

  lemma InterpolatedQuarter(x: real, y: real, part: real, rest: nat)
    requires 4.0 * part == rest as real && rest < 4
    ensures 4.0 * (x + part * (y - x)) == (4 - rest) as real * x + rest as real * y
  {
    assert 4.0 * (part * (y - x)) == rest as real * (y - x);
  }

  /** There is one such value. */
  lemma OneQuartile(v: real, w: real, sorted: seq<real>, q: nat)
    requires sorted != [] && IsQuartile(v, sorted, q) && IsQuartile(w, sorted, q)
    ensures v == w
  {
  }

  /** The median is the mean of the two middle values, which coincide in an odd number of them. */
  lemma MedianExactly(s: seq<real>)
    requires s != []
    ensures 2.0 * Median(s) == Ordered(s)[(|s| - 1) / 2] + Ordered(s)[|s| / 2]
  {
    hide Ordered;
    MiddleTwo(Ordered(s));
  }

  lemma MiddleTwo(r: seq<real>)
    requires r != []
    ensures 2.0 * SortedMedian(r) == r[(|r| - 1) / 2] + r[|r| / 2]
  {
    assert |r| % 2 == 0 ==> (|r| - 1) / 2 == |r| / 2 - 1;
  }

  /** When a key shift is applied, and which: by the order statistics of the deviations of the compared frames. */
  lemma KeyShiftExactly(limits: KeyLimits, eligible: bool, d: seq<Option<real>>, median: real, q1: real, q3: real)
    requires Present(d) != []
    requires var r := Ordered(Present(d));
             2.0 * median == r[(|r| - 1) / 2] + r[|r| / 2] && IsQuartile(q1, r, 1) && IsQuartile(q3, r, 3)
    ensures var k := NormalizeKey(limits, eligible, d);
            && 100.0 * k.medianSemitones == median && 100.0 * k.iqrSemitones == q3 - q1
            && (k.outOfRange <==> eligible && Abs(median) > 100.0 * limits.maxSemitones)
            && (k.applied <==> eligible
                               && 100.0 * limits.minSemitones <= Abs(median) <= 100.0 * limits.maxSemitones
                               && q3 - q1 <= 100.0 * limits.maxIqrSemitones)
            && (k.applied ==> k.adjustedMeanAbsCents == Some(MeanAbs(Shifted(Present(d), median)))
                              && k.adjustedScore == Some(ScoreFromMeanAbsCents(MeanAbs(Shifted(Present(d), median)))))
            && (!k.applied ==> k.adjustedMeanAbsCents == None && k.adjustedScore == None)
  {
    hide Ordered, Percentile, ScoreFromMeanAbsCents, MeanAbs;
    var s := Present(d);
    MedianExactly(s);
    QuartilesAgree(s, q1, q3);
    assert Median(s) == median && median / SEMITONE_CENTS * SEMITONE_CENTS == median;
  }

  lemma QuartilesAgree(s: seq<real>, q1: real, q3: real)
    requires s != [] && IsQuartile(q1, Ordered(s), 1) && IsQuartile(q3, Ordered(s), 3)
    ensures Percentile(s, 25.0) == q1 && Percentile(s, 75.0) == q3
  {
    hide Ordered, Percentile, IsQuartile;
    QuartileExactly(s, 1);
    QuartileExactly(s, 3);
    OneQuartile(q1, Percentile(s, 25.0), Ordered(s), 1);
    OneQuartile(q3, Percentile(s, 75.0), Ordered(s), 3);
  }

  /** Shifting subtracts the shift from every value. */
  lemma {:induction false} ShiftedExactly(s: seq<real>, c: real)
    ensures |Shifted(s, c)| == |s| && forall i :: 0 <= i < |s| ==> Shifted(s, c)[i] == s[i] - c
  {
    if s != [] { ShiftedExactly(s[1..], c); }
  }

  // ---------------------------------------------------------------- voice

  /** The voiced frames of a take. */
  function VoicedFrames(s: seq<Hz>): set<nat> {
    set i: nat | i < |s| && s[i].Some?
  }

  lemma {:induction false} VoicedCountExactly(s: seq<Hz>)
    ensures VoicedCount(s) == |VoicedFrames(s)|
  {
    if s == [] {
      assert VoicedFrames(s) == {};
    } else {
      VoicedCountExactly(s[1..]);
      var later := OneLater(VoicedFrames(s[1..]));
      ShiftedSize(VoicedFrames(s[1..]));
      forall i: nat ensures i in VoicedFrames(s) <==> i in later || (i == 0 && s[0].Some?) {
        if i > 0 { assert i in later <==> i - 1 in VoicedFrames(s[1..]); }
      }
      assert VoicedFrames(s) == later + if s[0].Some? then {0} else {};
    }
  }

  function OneLater(xs: set<nat>): (ys: set<nat>)
    ensures forall y: nat :: y in ys <==> y > 0 && y - 1 in xs
  {
    set x | x in xs :: x + 1
  }

  lemma {:induction false} ShiftedSize(xs: set<nat>)
    ensures |OneLater(xs)| == |xs|
  {
    if xs == {} {
      assert OneLater(xs) == {};
    } else {
      var x :| x in xs;
      ShiftedSize(xs - {x});
      assert OneLater(xs) == OneLater(xs - {x}) + {x + 1};
    }
  }

  /** The stage hears no voice iff fewer than one frame in twenty is voiced. */
  lemma NoVoiceExactly(user: seq<Hz>, reference: seq<Hz>, dist: (Hz, Hz) -> real, lv: Levels, order: seq<nat>)
    requires lv.stride >= 1
    requires MaxOffset(reference) >= 1 ==> |order| == MaxOffset(reference) + 1
    requires forall k :: 0 <= k < |order| ==> order[k] <= MaxOffset(reference)
    ensures AlignStage(user, reference, dist, lv, order) == Err(NoVoiceDetected)
            <==> user == [] || 20 * |VoicedFrames(user)| < |user|
    ensures AlignStage(user, reference, dist, lv, order) != Err(NoVoiceDetected) ==>
              match StageOutcome(user, reference, dist, lv, order)
              case Err(e) => AlignStage(user, reference, dist, lv, order) == Err(Rejected(e))
              case Ok(accepted) => AlignStage(user, reference, dist, lv, order) == Ok(accepted)
  {
    hide StageOutcome, VoicedCount;
    VoicedCountExactly(user);
    if user != [] { DivideExact(VoicedCount(user) as real, |user| as real); }
    if user != [] { FractionBelow(VoicedCount(user), |user|); }
  }

  lemma FractionBelow(x: nat, n: nat)
    requires n > 0
    ensures x as real / n as real < MIN_VOICED_FRACTION <==> 20 * x < n
  {
    var u, c := x as real / n as real, n as real;
    DivideExact(x as real, c);
    assert u < 0.05 ==> (0.05 - u) * c > 0.0;
    assert u >= 0.05 ==> (u - 0.05) * c >= 0.0;
  }
}
