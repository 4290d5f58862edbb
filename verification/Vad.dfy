/** The run-length loops over loud and silent frames: the voice-activity mask, its spans, the gated
    pitch detection that runs inside them, and the breath stage's dual pause detection. */
module Vad {
  import opened Basics

  const VAD_MIN_SILENT_RUN_SECONDS := 0.3
  const BREATH_MIN_PAUSE_SECONDS := 0.2

  datatype Span = Span(start: nat, end: nat)

  /** [a, b) is a maximal run of `v` in `xs`. */
  predicate IsRun(xs: seq<bool>, v: bool, a: nat, b: nat) {
    && a < b <= |xs|
    && (forall k :: a <= k < b ==> xs[k] == v)
    && (a > 0 ==> xs[a - 1] != v)
    && (b < |xs| ==> xs[b] != v)
  }

  /** Two maximal runs of the same value either coincide or lie apart. */
  lemma RunsApart(xs: seq<bool>, v: bool, a: nat, b: nat, c: nat, d: nat)
    requires IsRun(xs, v, a, b) && IsRun(xs, v, c, d)
    ensures (a == c && b == d) || b < c || d < a
  {
  }

  /** Frame `i` lies in a maximal silent run of at least `least` frames. */
  ghost predicate InLongSilence(loud: seq<bool>, least: nat, i: nat) {
    exists a: nat, b: nat :: IsRun(loud, false, a, b) && a <= i < b && b - a >= least
  }

  /** The mask has every frame on except those in long silence. */
  ghost predicate IsMask(mask: seq<bool>, loud: seq<bool>, least: nat) {
    |mask| == |loud| && forall i :: 0 <= i < |loud| ==> (mask[i] <==> !InLongSilence(loud, least, i))
  }

  // ---------------------------------------------------------------- loudness

  /** The loudest frame. */
  method Peak(rms: seq<real>) returns (peak: real)
    requires rms != []
    ensures peak in rms && forall i :: 0 <= i < |rms| ==> rms[i] <= peak
  {
    peak := rms[0];
    for i := 1 to |rms|
      invariant peak in rms && forall j :: 0 <= j < i ==> rms[j] <= peak
    {
      if rms[i] > peak { peak := rms[i]; }
    }
  }

  /** Loud enough relative to the peak; `ratio` is the decibel threshold as a factor. */
  predicate IsLoud(level: real, peak: real, ratio: real) {
    level >= ratio * peak
  }

  ghost predicate IsLoudness(loud: seq<bool>, rms: seq<real>, ratio: real) {
    && |loud| == |rms|
    && exists peak :: IsPeak(peak, rms) && peak > 0.0
                      && forall i :: 0 <= i < |rms| ==> loud[i] == IsLoud(rms[i], peak, ratio)
  }

  ghost predicate IsPeak(peak: real, rms: seq<real>) {
    peak in rms && forall i :: 0 <= i < |rms| ==> rms[i] <= peak
  }

  /** There is one peak, so one loudness. */
  lemma LoudnessIsUnique(loud: seq<bool>, rms: seq<real>, ratio: real, peak: real)
    requires IsLoudness(loud, rms, ratio) && IsPeak(peak, rms)
    ensures peak > 0.0 && |loud| == |rms| && forall i :: 0 <= i < |rms| ==> loud[i] == IsLoud(rms[i], peak, ratio)
  {
    var p :| IsPeak(p, rms) && p > 0.0 && forall i :: 0 <= i < |rms| ==> loud[i] == IsLoud(rms[i], p, ratio);
    assert p == peak;
  }

  /** A minimum run is the nearest whole number of frames to its duration, but at least one. */
  lemma MinRunExactly(seconds: real, hop: real)
    requires hop > 0.0
    ensures MinRun(seconds, hop) >= 1
    ensures MinRun(seconds, hop) > 1 ==>
              MinRun(seconds, hop) as real - 0.5 <= seconds / hop <= MinRun(seconds, hop) as real + 0.5
    ensures MinRun(seconds, hop) == 1 ==> seconds / hop <= 1.5
  {
    RoundNearest(seconds / hop);
  }

  function MinRun(seconds: real, hop: real): nat
    requires hop > 0.0
  {
    Max(1, RoundHalfEven(seconds / hop))
  }

  // ---------------------------------------------------------------- the mask

  /** A silent run that ended at `b` decides all its frames. */
  lemma RunDecides(loud: seq<bool>, least: nat, a: nat, b: nat, i: nat)
    requires IsRun(loud, false, a, b) && a <= i < b
    ensures InLongSilence(loud, least, i) <==> b - a >= least
  {
    if InLongSilence(loud, least, i) {
      var c: nat, d: nat :| IsRun(loud, false, c, d) && c <= i < d && d - c >= least;
      RunsApart(loud, false, a, b, c, d);
    }
  }

  lemma LoudIsNotSilent(loud: seq<bool>, least: nat, i: nat)
    requires i < |loud| && loud[i]
    ensures !InLongSilence(loud, least, i)
  {
  }

  /** The gap-folding loop of `voiced_mask`. */
  method FoldShortGaps(loud: seq<bool>, least: nat) returns (mask: array<bool>)
    ensures fresh(mask) && IsMask(mask[..], loud, least)
  {
    mask := new bool[|loud|](i requires 0 <= i < |loud| => loud[i]);
    var runStart: Option<nat> := None;
    for i := 0 to |loud|
      invariant runStart.Some? ==> runStart.value < i && IsOpenRun(loud, runStart.value, i)
      invariant runStart.None? ==> i == 0 || loud[i - 1]
      invariant forall k :: 0 <= k < (if runStart.Some? then runStart.value else i) ==>
                              (mask[k] <==> !InLongSilence(loud, least, k))
      invariant forall k :: (if runStart.Some? then runStart.value else i) <= k < |loud| ==> mask[k] == loud[k]
    {
      if !loud[i] && runStart.None? {
        runStart := Some(i);
      } else if loud[i] && runStart.Some? {
        Settle(loud, least, runStart.value, i);
        if i - runStart.value < least {
          forall k | runStart.value <= k < i { mask[k] := true; }
        }
        LoudIsNotSilent(loud, least, i);
        runStart := None;
      } else if loud[i] {
        LoudIsNotSilent(loud, least, i);
      }
    }
    if runStart.Some? {
      Settle(loud, least, runStart.value, |loud|);
      if |loud| - runStart.value < least {
        forall k | runStart.value <= k < |loud| { mask[k] := true; }
      }
    }
  }

  /** Silence that started at `a` and has lasted until `i`. */
  predicate IsOpenRun(loud: seq<bool>, a: nat, i: nat) {
    a < i <= |loud| && (a > 0 ==> loud[a - 1]) && forall k :: a <= k < i ==> !loud[k]
  }

  lemma Settle(loud: seq<bool>, least: nat, a: nat, b: nat)
    requires IsOpenRun(loud, a, b) && (b < |loud| ==> loud[b])
    ensures forall k :: a <= k < b ==> (InLongSilence(loud, least, k) <==> b - a >= least)
  {
    forall k | a <= k < b ensures InLongSilence(loud, least, k) <==> b - a >= least {
      RunDecides(loud, least, a, b, k);
    }
  }

  predicate HasNoEnergy(rms: seq<real>) {
    forall i :: 0 <= i < |rms| ==> rms[i] <= 0.0
  }

  /** What `voiced_mask` promises: nothing is voiced unless some frame has energy; otherwise exactly the
      frames of long silent runs are gated off. */
  ghost predicate IsVoicing(mask: seq<bool>, rms: seq<real>, ratio: real, least: nat) {
    && |mask| == |rms|
    && (HasNoEnergy(rms) ==> forall i :: 0 <= i < |mask| ==> !mask[i])
    && (forall loud :: IsLoudness(loud, rms, ratio) ==> IsMask(mask, loud, least))
  }

  lemma {:induction false} HasPeak(rms: seq<real>) returns (peak: real)
    requires rms != []
    ensures IsPeak(peak, rms)
  {
    var n := |rms| - 1;
    peak := rms[n];
    if n > 0 {
      var earlier := HasPeak(rms[..n]);
      if earlier > peak { peak := earlier; }
    }
  }

  /** The promise determines the mask. */
  lemma VoicingIsUnique(xs: seq<bool>, ys: seq<bool>, rms: seq<real>, ratio: real, least: nat)
    requires IsVoicing(xs, rms, ratio, least) && IsVoicing(ys, rms, ratio, least)
    ensures xs == ys
  {
    if !HasNoEnergy(rms) {
      var peak := HasPeak(rms);
      var loud := seq(|rms|, i requires 0 <= i < |rms| => IsLoud(rms[i], peak, ratio));
      assert IsLoudness(loud, rms, ratio);
    }
  }

  method VoicedMask(rms: seq<real>, hop: real, ratio: real) returns (mask: seq<bool>)
    requires hop > 0.0
    ensures IsVoicing(mask, rms, ratio, MinRun(VAD_MIN_SILENT_RUN_SECONDS, hop))
  {
    if rms == [] { return []; }
    var peak := Peak(rms);
    if peak <= 0.0 { return seq(|rms|, i => false); }
    var loud := seq(|rms|, i requires 0 <= i < |rms| => IsLoud(rms[i], peak, ratio));
    var folded := FoldShortGaps(loud, MinRun(VAD_MIN_SILENT_RUN_SECONDS, hop));
    mask := folded[..];
    forall other | IsLoudness(other, rms, ratio) ensures other == loud {
      LoudnessIsUnique(other, rms, ratio, peak);
    }
  }

  // ---------------------------------------------------------------- the spans

  /** The maximal voiced runs, left to right, and nothing else. */
  ghost predicate AreSpans(spans: seq<Span>, mask: seq<bool>) {
    && (forall k :: 0 <= k < |spans| ==> IsRun(mask, true, spans[k].start, spans[k].end))
    && (forall j, k :: 0 <= j < k < |spans| ==> spans[j].end < spans[k].start)
    && (forall i :: 0 <= i < |mask| && mask[i] ==> Covered(spans, i))
  }

  predicate Covered(spans: seq<Span>, i: int) {
    exists k :: 0 <= k < |spans| && spans[k].start <= i < spans[k].end
  }

  /** The spans rebuild the mask exactly. */
  lemma SpansRebuildMask(spans: seq<Span>, mask: seq<bool>, i: nat)
    requires AreSpans(spans, mask) && i < |mask|
    ensures mask[i] <==> Covered(spans, i)
  {
  }

  /** Only one list of spans fits a mask. */
  lemma {:induction false} SpansAreUnique(xs: seq<Span>, ys: seq<Span>, mask: seq<bool>)
    requires AreSpans(xs, mask) && AreSpans(ys, mask)
    ensures xs == ys
  {
    AgreeUpTo(xs, ys, mask, |xs|);
    AgreeUpTo(ys, xs, mask, |ys|);
  }

  /** Span `n` of one list occurs in the other, not among the first `n` they share. */
  lemma OccursLater(xs: seq<Span>, ys: seq<Span>, mask: seq<bool>, n: nat)
    requires AreSpans(xs, mask) && AreSpans(ys, mask) && n < |xs| && n <= |ys| && xs[..n] == ys[..n]
    ensures exists j :: n <= j < |ys| && ys[j] == xs[n]
  {
    var x := xs[n];
    assert mask[x.start];
    var j :| 0 <= j < |ys| && ys[j].start <= x.start < ys[j].end;
    RunsApart(mask, true, x.start, x.end, ys[j].start, ys[j].end);
    hide IsRun;
    assert ys[j] == x;
    assert forall k :: 0 <= k < n ==> ys[k] == ys[..n][k] == xs[..n][k] == xs[k];
  }

  /** After a shared front both lists go on with the same span. */
  lemma SameNext(xs: seq<Span>, ys: seq<Span>, mask: seq<bool>, n: nat)
    requires AreSpans(xs, mask) && AreSpans(ys, mask) && n < |xs| && n <= |ys| && xs[..n] == ys[..n]
    ensures n < |ys| && ys[n] == xs[n]
  {
    hide AreSpans;
    OccursLater(xs, ys, mask, n);
    var j :| n <= j < |ys| && ys[j] == xs[n];
    OccursLater(ys, xs, mask, n);
    var i :| n <= i < |xs| && xs[i] == ys[n];
    InOrder(xs, mask, n, i);
    InOrder(ys, mask, n, j);
  }

  /** The first `n` spans of one list are the first `n` of the other. */
  lemma {:induction false} AgreeUpTo(xs: seq<Span>, ys: seq<Span>, mask: seq<bool>, n: nat)
    requires AreSpans(xs, mask) && AreSpans(ys, mask) && n <= |xs|
    ensures n <= |ys| && xs[..n] == ys[..n]
  {
    hide AreSpans;
    if n > 0 {
      AgreeUpTo(xs, ys, mask, n - 1);
      SameNext(xs, ys, mask, n - 1);
      assert xs[..n] == xs[..n - 1] + [xs[n - 1]] && ys[..n] == ys[..n - 1] + [ys[n - 1]];
    }
  }

  lemma InOrder(xs: seq<Span>, mask: seq<bool>, j: nat, k: nat)
    requires AreSpans(xs, mask) && j <= k < |xs|
    ensures xs[j].start < xs[j].end && (j < k ==> xs[j].end < xs[k].start)
  {
    assert IsRun(mask, true, xs[j].start, xs[j].end);
  }

  /** The voiced runs of the first `upTo` frames. */
  ghost predicate SpansUpTo(spans: seq<Span>, mask: seq<bool>, upTo: nat) {
    && (forall k :: 0 <= k < |spans| ==> IsRun(mask, true, spans[k].start, spans[k].end))
    && (forall j, k :: 0 <= j < k < |spans| ==> spans[j].end < spans[k].start)
    && (forall k :: 0 <= k < |spans| ==> spans[k].end < upTo)
    && (forall k :: 0 <= k < upTo && k < |mask| && mask[k] ==> Covered(spans, k))
  }

  lemma RunIsSpan(spans: seq<Span>, mask: seq<bool>, a: nat, b: nat)
    requires SpansUpTo(spans, mask, a) && IsRun(mask, true, a, b)
    ensures SpansUpTo(spans + [Span(a, b)], mask, b + 1)
  {
    AppendCovers(spans, Span(a, b));
  }

  method VoicedSpans(mask: seq<bool>) returns (spans: seq<Span>)
    ensures AreSpans(spans, mask)
  {
    spans := [];
    var runStart: Option<nat> := None;
    for i := 0 to |mask|
      invariant runStart.Some? ==> runStart.value < i && (forall k :: runStart.value <= k < i ==> mask[k])
                                   && (runStart.value > 0 ==> !mask[runStart.value - 1])
      invariant runStart.None? ==> i == 0 || !mask[i - 1]
      invariant SpansUpTo(spans, mask, if runStart.Some? then runStart.value else i)
    {
      if mask[i] && runStart.None? {
        runStart := Some(i);
      } else if !mask[i] && runStart.Some? {
        RunIsSpan(spans, mask, runStart.value, i);
        spans := spans + [Span(runStart.value, i)];
        runStart := None;
      }
    }
    if runStart.Some? {
      RunIsSpan(spans, mask, runStart.value, |mask|);
      spans := spans + [Span(runStart.value, |mask|)];
    }
  }

  lemma AppendCovers(spans: seq<Span>, last: Span)
    ensures forall i :: Covered(spans, i) || last.start <= i < last.end ==> Covered(spans + [last], i)
  {
    forall i | Covered(spans, i) || last.start <= i < last.end ensures Covered(spans + [last], i) {
      if Covered(spans, i) {
        var k :| 0 <= k < |spans| && spans[k].start <= i < spans[k].end;
        assert (spans + [last])[k] == spans[k];
      } else {
        assert (spans + [last])[|spans|] == last;
      }
    }
  }

  // ---------------------------------------------------------------- gated detection

  function HopLength(sampleRate: nat, hop: real): nat {
    Max(1, RoundHalfEven(sampleRate as real * hop))
  }

  /** numpy slicing, which clips both ends. */
  function Chunk<T>(samples: seq<T>, from: nat, to: nat): seq<T>
    requires from <= to
  {
    samples[Min(from, |samples|)..Min(to, |samples|)]
  }

  /** The samples of one span. */
  function SpanChunk<S>(samples: seq<S>, span: Span, hopLength: nat): seq<S>
    requires span.start <= span.end
  {
    assert span.start * hopLength <= span.end * hopLength;
    Chunk(samples, span.start * hopLength, span.end * hopLength)
  }

  /** What frame `i` of a span gets: the detector's own frame `i - start`, if it returned that many. */
  function FrameIn<S, H>(samples: seq<S>, span: Span, hopLength: nat, detect: seq<S> -> seq<Option<H>>,
                         i: nat): Option<H>
    requires span.start <= i < span.end
  {
    var chunk := SpanChunk(samples, span, hopLength);
    if chunk == [] || |detect(chunk)| <= i - span.start then None else detect(chunk)[i - span.start]
  }

  /** The frames of `result` inside the first `n` spans are the detector's, all others are empty. */
  ghost predicate Detected<S(!new), H(!new)>(result: seq<Option<H>>, samples: seq<S>, spans: seq<Span>, n: nat,
                                             hopLength: nat,
                                             detect: seq<S> -> seq<Option<H>>)
    requires n <= |spans|
  {
    && (forall k, i :: 0 <= k < n && spans[k].start <= i < spans[k].end && i < |result| ==>
                         result[i] == FrameIn(samples, spans[k], hopLength, detect, i))
    && (forall i :: 0 <= i < |result| && !Covered(spans[..n], i) ==> result[i] == None)
  }

  /** One frame per mask frame: the detector's inside the spans, none where the mask is off. */
  ghost predicate IsGated<S(!new), H(!new)>(result: seq<Option<H>>, samples: seq<S>, mask: seq<bool>,
                                            spans: seq<Span>, hopLength: nat,
                                            detect: seq<S> -> seq<Option<H>>) {
    && |result| == |mask|
    && Detected(result, samples, spans, |spans|, hopLength, detect)
    && (forall i :: 0 <= i < |mask| && !mask[i] ==> result[i] == None)
  }

  /** Gating never moves a detection: with a detector that reads each frame off one sample, `hopLength` apart, every
      voiced frame has what the detector reads off that frame's own sample of the whole recording. */
  lemma DetectionsStayInPlace<S(!new), H(!new)>(result: seq<Option<H>>, samples: seq<S>, mask: seq<bool>,
                                               spans: seq<Span>, hopLength: nat, detect: seq<S> -> seq<Option<H>>,
                                               read: S -> Option<H>, i: nat)
    requires AreSpans(spans, mask) && IsGated(result, samples, mask, spans, hopLength, detect)
    requires hopLength >= 1 && forall chunk: seq<S> :: ReadsFrames(detect(chunk), chunk, hopLength, read)
    requires i < |mask| && i * hopLength < |samples|
    ensures result[i] == if mask[i] then read(samples[i * hopLength]) else None
  {
    SpansRebuildMask(spans, mask, i);
    if mask[i] {
      var k :| 0 <= k < |spans| && spans[k].start <= i < spans[k].end;
      var span := spans[k];
      assert result[i] == FrameIn(samples, span, hopLength, detect, i);
      OwnSample(samples, span, hopLength, i);
      var chunk := SpanChunk(samples, span, hopLength);
      hide SpanChunk;
      assert ReadsFrames(detect(chunk), chunk, hopLength, read);
    }
  }

  ghost predicate ReadsFrames<S(!new), H(!new)>(frames: seq<Option<H>>, chunk: seq<S>, hopLength: nat,
                                               read: S -> Option<H>) {
    forall k: nat :: IsFrameOf(chunk, hopLength, k) ==> k < |frames| && frames[k] == read(chunk[k * hopLength])
  }

  predicate IsFrameOf<S>(chunk: seq<S>, hopLength: nat, k: nat) {
    0 <= k * hopLength < |chunk|
  }

  lemma OwnSample<S>(samples: seq<S>, span: Span, hopLength: nat, i: nat)
    requires span.start <= i < span.end && hopLength >= 1 && i * hopLength < |samples|
    ensures var chunk := SpanChunk(samples, span, hopLength);
            IsFrameOf(chunk, hopLength, i - span.start) && chunk[(i - span.start) * hopLength] == samples[i * hopLength]
  {
    HopsApart(span.start, i, span.end, hopLength);
    ChunkAt(samples, span.start * hopLength, span.end * hopLength, i * hopLength);
  }

  lemma HopsApart(a: nat, i: nat, b: nat, hop: nat)
    requires a <= i < b && hop >= 1
    ensures 0 <= a * hop <= i * hop < b * hop && (i - a) * hop == i * hop - a * hop
  {
    Distributes(a, i, hop);
    Distributes(i, i + 1, hop);
    Distributes(i + 1, b, hop);
  }

  lemma Distributes(a: nat, i: nat, hop: nat)
    requires a <= i
    ensures (i - a) * hop == i * hop - a * hop && 0 <= a * hop <= i * hop
  {
  }

  lemma ChunkAt<T>(samples: seq<T>, from: nat, to: nat, x: nat)
    requires from <= x < to && x < |samples|
    ensures x - from < |Chunk(samples, from, to)| && Chunk(samples, from, to)[x - from] == samples[x]
  {
  }

  /** `detect_gated`: the detector runs once per span and its frames land at the span's own offsets. */
  method DetectGated<S(!new), H(!new)>(detect: seq<S> -> seq<Option<H>>, samples: seq<S>, sampleRate: nat, hop: real,
                                       rms: seq<real>, ratio: real)
    returns (result: seq<Option<H>>)
    requires hop > 0.0
    ensures |result| == |rms|
    ensures exists mask, spans ::
              && IsVoicing(mask, rms, ratio, MinRun(VAD_MIN_SILENT_RUN_SECONDS, hop)) && AreSpans(spans, mask)
              && IsGated(result, samples, mask, spans, HopLength(sampleRate, hop), detect)
  {
    hide IsMask, IsLoudness, AreSpans, FrameIn, MinRun;
    var voiced := VoicedMask(rms, hop, ratio);
    assert |voiced| == |rms|;
    hide IsVoicing;
    var out := new Option<H>[|voiced|](_ => None);
    var found := VoicedSpans(voiced);
    var hopLength := HopLength(sampleRate, hop);
    for n := 0 to |found|
      invariant Detected(out[..], samples, found, n, hopLength, detect)
    {
      var span := found[n];
      ghost var before := out[..];
      SpanStillEmpty(before, samples, voiced, found, n, hopLength, detect);
      assert forall i :: span.start <= i < span.end ==> out[i] == before[i];
      FillSpan(out, samples, span, hopLength, detect);
      hide Detected;
      SpanDone(before, out[..], samples, voiced, found, n, hopLength, detect);
    }
    result := out[..];
    assert found[..|found|] == found;
    forall i | 0 <= i < |voiced| && !voiced[i] ensures result[i] == None {
      SpansRebuildMask(found, voiced, i);
    }
    assert IsGated(result, samples, voiced, found, hopLength, detect);
  }

  /** Detects one span and writes its frames in place. */
  method FillSpan<S, H>(out: array<Option<H>>, samples: seq<S>, span: Span, hopLength: nat,
                        detect: seq<S> -> seq<Option<H>>)
    requires span.start < span.end <= out.Length && forall i :: span.start <= i < span.end ==> out[i] == None
    modifies out
    ensures forall i :: 0 <= i < out.Length && !(span.start <= i < span.end) ==> out[i] == old(out[i])
    ensures forall i :: span.start <= i < span.end ==> out[i] == FrameIn(samples, span, hopLength, detect, i)
  {
    hide SpanChunk;
    var chunk := SpanChunk(samples, span, hopLength);
    if chunk != [] {
      var detected := detect(chunk);
      var length := Min(|detected|, span.end - span.start);
      for i := 0 to length
        invariant forall j :: 0 <= j < out.Length && !(span.start <= j < span.start + i) ==> out[j] == old(out[j])
        invariant forall j :: span.start <= j < span.start + i ==> out[j] == detected[j - span.start]
      {
        out[span.start + i] := detected[i];
      }
    }
  }

  /** No earlier span reaches into span `n`. */
  lemma SpanStillEmpty<S(!new), H(!new)>(before: seq<Option<H>>, samples: seq<S>, mask: seq<bool>, spans: seq<Span>,
                                         n: nat, hopLength: nat,
                                         detect: seq<S> -> seq<Option<H>>)
    requires AreSpans(spans, mask) && n < |spans| && |before| == |mask|
    requires Detected(before, samples, spans, n, hopLength, detect)
    ensures spans[n].start < spans[n].end <= |mask|
    ensures forall i :: spans[n].start <= i < spans[n].end ==> before[i] == None
  {
    hide FrameIn;
    assert IsRun(mask, true, spans[n].start, spans[n].end);
    forall i | spans[n].start <= i < spans[n].end ensures before[i] == None {
      forall k | 0 <= k < n ensures spans[..n][k].end < spans[n].start {}
    }
  }

  lemma SpanDone<S(!new), H(!new)>(before: seq<Option<H>>, result: seq<Option<H>>, samples: seq<S>,
                                   mask: seq<bool>, spans: seq<Span>, n: nat,
                                   hopLength: nat, detect: seq<S> -> seq<Option<H>>)
    requires AreSpans(spans, mask) && n < |spans| && |before| == |result| == |mask|
    requires Detected(before, samples, spans, n, hopLength, detect)
    requires forall i :: 0 <= i < |before| && !(spans[n].start <= i < spans[n].end) ==> result[i] == before[i]
    requires forall i :: spans[n].start <= i < spans[n].end && i < |result| ==>
                           result[i] == FrameIn(samples, spans[n], hopLength, detect, i)
    ensures Detected(result, samples, spans, n + 1, hopLength, detect)
  {
    hide FrameIn;
    assert spans[..n + 1] == spans[..n] + [spans[n]];
    AppendCovers(spans[..n], spans[n]);
    forall k, i | 0 <= k < n + 1 && spans[k].start <= i < spans[k].end && i < |result|
      ensures result[i] == FrameIn(samples, spans[k], hopLength, detect, i)
    {
      if k < n { assert spans[k].end < spans[n].start; }
    }
  }

  // ---------------------------------------------------------------- pauses

  /** The long silent runs, left to right, and nothing else. */
  ghost predicate ArePauses(pauses: seq<Span>, loud: seq<bool>, least: nat) {
    && (forall k :: 0 <= k < |pauses| ==>
                      IsRun(loud, false, pauses[k].start, pauses[k].end) && pauses[k].end - pauses[k].start >= least)
    && (forall j, k :: 0 <= j < k < |pauses| ==> pauses[j].end < pauses[k].start)
    && (forall i :: 0 <= i < |loud| && InLongSilence(loud, least, i) ==> Covered(pauses, i))
  }

  /** The long silent runs of the first `upTo` frames. */
  ghost predicate PausesUpTo(pauses: seq<Span>, loud: seq<bool>, least: nat, upTo: nat) {
    && (forall k :: 0 <= k < |pauses| ==>
                      IsRun(loud, false, pauses[k].start, pauses[k].end) && pauses[k].end - pauses[k].start >= least)
    && (forall j, k :: 0 <= j < k < |pauses| ==> pauses[j].end < pauses[k].start)
    && (forall k :: 0 <= k < |pauses| ==> pauses[k].end < upTo)
    && (forall k :: 0 <= k < upTo && k < |loud| && InLongSilence(loud, least, k) ==> Covered(pauses, k))
  }

  /** A silent run that ends at `b` is a pause iff it is long enough. */
  lemma RunSettled(pauses: seq<Span>, loud: seq<bool>, least: nat, a: nat, b: nat)
    requires PausesUpTo(pauses, loud, least, a) && IsRun(loud, false, a, b)
    ensures b - a >= least ==> PausesUpTo(pauses + [Span(a, b)], loud, least, b + 1)
    ensures b - a < least ==> PausesUpTo(pauses, loud, least, b + 1)
  {
    Settle(loud, least, a, b);
    if b < |loud| { LoudIsNotSilent(loud, least, b); }
    if b - a >= least { AppendCovers(pauses, Span(a, b)); }
    hide InLongSilence, IsRun, Covered;
    forall k | 0 <= k < b + 1 && k < |loud| && InLongSilence(loud, least, k)
      ensures Covered(if b - a >= least then pauses + [Span(a, b)] else pauses, k)
    {
    }
  }

  lemma LoudSettled(pauses: seq<Span>, loud: seq<bool>, least: nat, i: nat)
    requires PausesUpTo(pauses, loud, least, i) && i < |loud| && loud[i]
    ensures PausesUpTo(pauses, loud, least, i + 1)
  {
    LoudIsNotSilent(loud, least, i);
    hide InLongSilence, IsRun, Covered;
  }

  /** `_pause_regions`, in frames. */
  method PauseFrames(loud: seq<bool>, least: nat) returns (pauses: seq<Span>)
    ensures ArePauses(pauses, loud, least)
  {
    pauses := [];
    var runStart: Option<nat> := None;
    for i := 0 to |loud|
      invariant runStart.Some? ==> runStart.value < i && IsOpenRun(loud, runStart.value, i)
      invariant runStart.None? ==> i == 0 || loud[i - 1]
      invariant PausesUpTo(pauses, loud, least, if runStart.Some? then runStart.value else i)
    {
      if !loud[i] && runStart.None? {
        runStart := Some(i);
      } else if loud[i] && runStart.Some? {
        RunSettled(pauses, loud, least, runStart.value, i);
        if i - runStart.value >= least {
          pauses := pauses + [Span(runStart.value, i)];
        }
        runStart := None;
      } else if loud[i] {
        LoudSettled(pauses, loud, least, i);
      }
    }
    if runStart.Some? {
      RunSettled(pauses, loud, least, runStart.value, |loud|);
      if |loud| - runStart.value >= least {
        pauses := pauses + [Span(runStart.value, |loud|)];
      }
    }
  }

  /** The two loops are dual: with the same minimum run, a frame is inside a pause exactly when the
      voice-activity mask gates it off. */
  lemma PausesAreTheGatedFrames(pauses: seq<Span>, mask: seq<bool>, loud: seq<bool>, least: nat, i: nat)
    requires ArePauses(pauses, loud, least) && IsMask(mask, loud, least) && i < |loud|
    ensures Covered(pauses, i) <==> !mask[i]
  {
    if Covered(pauses, i) {
      var k :| 0 <= k < |pauses| && pauses[k].start <= i < pauses[k].end;
      RunDecides(loud, least, pauses[k].start, pauses[k].end, i);
    }
  }

  /** The pauses are the voiced spans of the inverted mask. */
  lemma PausesAreInvertedSpans(pauses: seq<Span>, mask: seq<bool>, loud: seq<bool>, least: nat)
    requires ArePauses(pauses, loud, least) && IsMask(mask, loud, least) && least > 0
    ensures AreSpans(pauses, seq(|mask|, i requires 0 <= i < |mask| => !mask[i]))
  {
    var inverted := seq(|mask|, i requires 0 <= i < |mask| => !mask[i]);
    forall i | 0 <= i < |inverted| ensures inverted[i] <==> Covered(pauses, i) {
      PausesAreTheGatedFrames(pauses, mask, loud, least, i);
    }
    forall k | 0 <= k < |pauses| ensures IsRun(inverted, true, pauses[k].start, pauses[k].end) {
      var p := pauses[k];
      forall i | p.start <= i < p.end ensures inverted[i] { assert Covered(pauses, i); }
      if p.start > 0 { LoudIsNotSilent(loud, least, p.start - 1); }
      if p.end < |loud| { LoudIsNotSilent(loud, least, p.end); }
    }
  }

  /** No energy, no pauses; otherwise the long silent runs. */
  ghost predicate IsPausing(pauses: seq<Span>, rms: seq<real>, ratio: real, least: nat) {
    && (HasNoEnergy(rms) ==> pauses == [])
    && (forall loud :: IsLoudness(loud, rms, ratio) ==> ArePauses(pauses, loud, least))
  }

  /** `_pause_regions`: those pauses, in seconds. */
  method PauseRegions(rms: seq<real>, hop: real, ratio: real) returns (regions: seq<(real, real)>)
    requires hop > 0.0
    ensures exists pauses: seq<Span> ::
              && IsPausing(pauses, rms, ratio, MinRun(BREATH_MIN_PAUSE_SECONDS, hop)) && |regions| == |pauses|
              && forall k :: 0 <= k < |pauses| ==>
                               && regions[k].0 == pauses[k].start as real * hop
                               && regions[k].1 == pauses[k].end as real * hop
  {
    hide ArePauses, IsLoudness, MinRun, InSeconds;
    var frames: seq<Span> := [];
    if rms == [] {
      EmptyHasNoLoudness(rms, ratio);
    } else {
      var peak := Peak(rms);
      if peak <= 0.0 {
        forall loud | IsLoudness(loud, rms, ratio) ensures false { LoudnessIsUnique(loud, rms, ratio, peak); }
      } else {
        var loud := seq(|rms|, i requires 0 <= i < |rms| => IsLoud(rms[i], peak, ratio));
        frames := PauseFrames(loud, MinRun(BREATH_MIN_PAUSE_SECONDS, hop));
        forall other | IsLoudness(other, rms, ratio) ensures other == loud {
          LoudnessIsUnique(other, rms, ratio, peak);
        }
      }
    }
    regions := InSeconds(frames, hop);
    assert IsPausing(frames, rms, ratio, MinRun(BREATH_MIN_PAUSE_SECONDS, hop));
  }

  function InSeconds(pauses: seq<Span>, hop: real): (r: seq<(real, real)>)
    ensures |r| == |pauses|
    ensures forall k :: 0 <= k < |pauses| ==>
                          r[k].0 == Seconds(pauses[k].start, hop) && r[k].1 == Seconds(pauses[k].end, hop)
  {
    seq(|pauses|, k requires 0 <= k < |pauses| => (Seconds(pauses[k].start, hop), Seconds(pauses[k].end, hop)))
  }

  function Seconds(frame: nat, hop: real): real {
    frame as real * hop
  }

  lemma EmptyHasNoLoudness(rms: seq<real>, ratio: real)
    requires rms == []
    ensures forall loud :: !IsLoudness(loud, rms, ratio)
  {
  }
}
