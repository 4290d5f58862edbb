/** The durable writes that end a successful analysis job, one by one, and what happens when the worker
    dies between any two of them and the entry is delivered again. Timestamps are not modelled. */
module SuccessTail {
  import opened Basics
  import opened Statuses
  import Lifecycle

  /** Numbers and texts of no further interest: curves, piano rolls, model versions, feedback. */
  type Blob = nat

  type Aspect = string

  const ASPECTS: seq<Aspect> := ["pitch", "rhythm", "breath", "dynamics", "vibrato", "timbre"]

  /** What the pipeline left in `stages_json`: each aspect stage's score and the dense fields of the
      pitch stage, and the aggregate stage's output. */
  datatype Stages = Stages(scores: map<Aspect, real>, pianoRoll: Option<Blob>, userCurve: Option<Blob>,
                           referenceCurve: Option<Blob>, aggregate: Option<Aggregate>)

  datatype Aggregate = Aggregate(overall: real, confidence: Blob, rest: Blob)

  datatype Snapshot = Snapshot(overall: real, mode: Blob, confidence: Blob)


  /** One analyses row, its progress_snapshots row, and whether its stream entry is still pending. */
  datatype Row = Row(mode: Blob, stages: Stages, scores: map<Aspect, real>, pianoRoll: Option<Blob>,
                     userCurve: Option<Blob>, scoring: Option<Aggregate>, snapshot: Option<Snapshot>,
                     versions: Option<Blob>, status: Status, pending: bool)

  datatype Write =
    | SaveScore(aspect: Aspect, score: real)
    | SavePianoRoll(data: Blob)
    | SaveUserCurve(curve: Blob)
    | SaveScoring(result: Aggregate)
    | SaveSnapshot(snapshot: Snapshot)
    | PruneDense
    | MarkDone(versions: Blob)
    | AckAndRemove

  function Pruned(s: Stages): Stages {
    s.(pianoRoll := None, userCurve := None, referenceCurve := None)
  }

  function Apply(r: Row, w: Write): Row {
    match w
    case SaveScore(aspect, score) => r.(scores := r.scores[aspect := score])
    case SavePianoRoll(data) => r.(pianoRoll := Some(data))
    case SaveUserCurve(curve) => r.(userCurve := Some(curve))
    case SaveScoring(result) => r.(scoring := Some(result))
    case SaveSnapshot(snapshot) => r.(snapshot := Some(snapshot))
    case PruneDense => r.(stages := Pruned(r.stages))
    case MarkDone(versions) => r.(versions := Some(versions), status := Done)
    case AckAndRemove => r.(pending := false)
  }

  function ApplyAll(r: Row, ws: seq<Write>): Row
    decreases |ws|
  {
    if ws == [] then r else Apply(ApplyAll(r, ws[..|ws| - 1]), ws[|ws| - 1])
  }

  // ---------------------------------------------------------------- the writes of one pass

  function ScoreWrites(s: Stages, aspects: seq<Aspect>): seq<Write> {
    if aspects == [] then []
    else ScoreWrites(s, aspects[..|aspects| - 1]) + ScoreWrite(s, aspects[|aspects| - 1])
  }

  function ScoreWrite(s: Stages, aspect: Aspect): seq<Write> {
    if aspect in s.scores then [SaveScore(aspect, s.scores[aspect])] else []
  }

  function CurveWrites(s: Stages): seq<Write> {
    (if s.pianoRoll.Some? then [SavePianoRoll(s.pianoRoll.value)] else [])
    + (if s.userCurve.Some? then [SaveUserCurve(s.userCurve.value)] else [])
  }

  function AggregateWrites(r: Row): seq<Write> {
    if r.stages.aggregate.None? then []
    else
      var a := r.stages.aggregate.value;
      [SaveScoring(a), SaveSnapshot(Snapshot(a.overall, r.mode, a.confidence))]
  }

  /** Everything the handler writes after the pipeline completed, in order, from the record it re-read. */
  function Tail(r: Row, versions: Blob): (ws: seq<Write>)
    ensures |ws| >= 3
  {
    ScoreWrites(r.stages, ASPECTS) + CurveWrites(r.stages) + AggregateWrites(r)
    + [PruneDense, MarkDone(versions), AckAndRemove]
  }

  // ---------------------------------------------------------------- crash and replay

  /** A delivery that dies after `k` writes; an acknowledged entry is not delivered again. */
  function Crash(r: Row, versions: Blob, k: nat): Row {
    if !r.pending then r else ApplyAll(r, Tail(r, versions)[..Min(k, |Tail(r, versions)|)])
  }

  /** Any number of deliveries, each dying somewhere. */
  function Crashes(r: Row, versions: Blob, ks: seq<nat>): Row
    decreases |ks|
  {
    if ks == [] then r else Crashes(Crash(r, versions, ks[0]), versions, ks[1..])
  }

  /** A delivery that gets through. */
  function Finish(r: Row, versions: Blob): Row {
    if !r.pending then r else ApplyAll(r, Tail(r, versions))
  }

  /** The row a crash-free pass leaves. */
  function Settled(r: Row, versions: Blob): Row {
    Row(r.mode, Pruned(r.stages), r.scores + ScoresOf(r.stages), Newest(r.stages.pianoRoll, r.pianoRoll),
        Newest(r.stages.userCurve, r.userCurve),
        Newest(r.stages.aggregate, r.scoring), SnapshotOf(r), Some(versions), Done, false)
  }

  function ScoresOf(s: Stages): map<Aspect, real> {
    map a | a in s.scores && a in ASPECTS :: s.scores[a]
  }

  function Newest<T>(staged: Option<T>, saved: Option<T>): Option<T> {
    if staged.Some? then staged else saved
  }

  function SnapshotOf(r: Row): Option<Snapshot> {
    if r.stages.aggregate.None? then r.snapshot
    else Some(Snapshot(r.stages.aggregate.value.overall, r.mode, r.stages.aggregate.value.confidence))
  }

  /** Where a pass over `r` can be: each column holds its old or its final value, and the dense fields
      are still staged unless both curves are saved. */
  ghost predicate Between(r: Row, s: Row, versions: Blob) {
    && s.mode == r.mode
    && (s.stages == r.stages
        || (s.stages == Pruned(r.stages) && s.pianoRoll == Newest(r.stages.pianoRoll, r.pianoRoll)
            && s.userCurve == Newest(r.stages.userCurve, r.userCurve)))
    && s.scores + ScoresOf(r.stages) == r.scores + ScoresOf(r.stages)
    && s.pianoRoll in {r.pianoRoll, Newest(r.stages.pianoRoll, r.pianoRoll)}
    && s.userCurve in {r.userCurve, Newest(r.stages.userCurve, r.userCurve)}
    && s.scoring in {r.scoring, Newest(r.stages.aggregate, r.scoring)}
    && s.snapshot in {r.snapshot, SnapshotOf(r)}
    && (s.pending || s == Settled(r, versions))
  }

  /** Replaying from anywhere between leads to the same row. */
  lemma BetweenSettles(r: Row, s: Row, versions: Blob)
    requires Between(r, s, versions)
    ensures Settled(s, versions) == Settled(r, versions)
  {
    assert ScoresOf(s.stages) == ScoresOf(r.stages);
    assert s.pending || s == Settled(r, versions);
    if !s.pending { SettledTwice(r, versions); }
  }

  lemma SettledTwice(r: Row, versions: Blob)
    ensures Settled(Settled(r, versions), versions) == Settled(r, versions)
  {
    var s := Settled(r, versions);
    assert ScoresOf(s.stages) == ScoresOf(r.stages);
    assert s.scores + ScoresOf(s.stages) == s.scores;
  }

  // ---------------------------------------------------------------- one pass, phase by phase

  lemma {:induction false} ApplyAppend(r: Row, xs: seq<Write>, ys: seq<Write>)
    ensures ApplyAll(r, xs + ys) == ApplyAll(ApplyAll(r, xs), ys)
    decreases |ys|
  {
    if ys == [] {
      assert xs + ys == xs;
    } else {
      assert (xs + ys)[..|xs + ys| - 1] == xs + ys[..|ys| - 1];
      ApplyAppend(r, xs, ys[..|ys| - 1]);
    }
  }

  lemma CutAppend(r: Row, xs: seq<Write>, ys: seq<Write>, k: nat)
    requires k <= |xs + ys|
    ensures k <= |xs| ==> ApplyAll(r, (xs + ys)[..k]) == ApplyAll(r, xs[..k])
    ensures k >= |xs| ==> ApplyAll(r, (xs + ys)[..k]) == ApplyAll(ApplyAll(r, xs), ys[..k - |xs|])
  {
    if k <= |xs| { assert (xs + ys)[..k] == xs[..k]; }
    if k >= |xs| {
      assert (xs + ys)[..k] == xs + ys[..k - |xs|];
      ApplyAppend(r, xs, ys[..k - |xs|]);
    }
  }

  /** Every write saves the score `t` prescribes. */
  ghost predicate ScoresFrom(ws: seq<Write>, t: map<Aspect, real>) {
    forall i :: 0 <= i < |ws| ==> ws[i].SaveScore? && ws[i].aspect in t && t[ws[i].aspect] == ws[i].score
  }

  lemma {:induction false} ScoresLand(r: Row, ws: seq<Write>, t: map<Aspect, real>)
    requires ScoresFrom(ws, t)
    ensures var s := ApplyAll(r, ws);
            && s == r.(scores := s.scores) && s.scores + t == r.scores + t
            && (forall i :: 0 <= i < |ws| ==> ws[i].aspect in s.scores && s.scores[ws[i].aspect] == t[ws[i].aspect])
    decreases |ws|
  {
    if ws != [] {
      var n := |ws| - 1;
      ScoresLand(r, ws[..n], t);
      var u := ApplyAll(r, ws[..n]);
      assert ApplyAll(r, ws) == Apply(u, ws[n]);
      SaveIsAbsorbed(u.scores, t, ws[n].aspect);
    }
  }

  lemma SaveIsAbsorbed(m: map<Aspect, real>, t: map<Aspect, real>, a: Aspect)
    requires a in t
    ensures m[a := t[a]] + t == m + t
  {
  }

  lemma {:induction false} ScoreWritesFrom(s: Stages, aspects: seq<Aspect>)
    requires forall a :: a in aspects ==> a in ASPECTS
    ensures ScoresFrom(ScoreWrites(s, aspects), ScoresOf(s))
    ensures forall a :: a in aspects && a in s.scores ==> SaveScore(a, s.scores[a]) in ScoreWrites(s, aspects)
    decreases |aspects|
  {
    hide ApplyAll;
    if aspects != [] {
      var n := |aspects| - 1;
      var front, ws := ScoreWrites(s, aspects[..n]), ScoreWrites(s, aspects);
      ScoreWritesFrom(s, aspects[..n]);
      assert front <= ws;
      forall a | a in aspects && a in s.scores ensures SaveScore(a, s.scores[a]) in ws {
        if a in aspects[..n] {
          assert SaveScore(a, s.scores[a]) in front;
        } else {
          assert a == aspects[n] && ws == front + [SaveScore(a, s.scores[a])];
        }
      }
    }
  }

  /** Saving scores touches nothing else, each saved score is the staged one, and a full pass saves all. */
  lemma ScorePhase(r: Row, k: nat)
    requires k <= |ScoreWrites(r.stages, ASPECTS)|
    ensures var s := ApplyAll(r, ScoreWrites(r.stages, ASPECTS)[..k]);
            && s == r.(scores := s.scores) && s.scores + ScoresOf(r.stages) == r.scores + ScoresOf(r.stages)
            && (k == |ScoreWrites(r.stages, ASPECTS)| ==> s.scores == r.scores + ScoresOf(r.stages))
  {
    var ws := ScoreWrites(r.stages, ASPECTS);
    var t := ScoresOf(r.stages);
    ScoreWritesFrom(r.stages, ASPECTS);
    hide ScoreWrites, ApplyAll;
    ScoresLand(r, ws[..k], t);
    if k == |ws| {
      assert ws[..k] == ws;
      var s := ApplyAll(r, ws);
      forall a | a in t ensures a in s.scores && s.scores[a] == t[a] {
        assert SaveScore(a, r.stages.scores[a]) in ws;
      }
      assert s.scores == s.scores + t;
    }
  }

  lemma CurvePhase(r: Row, s: Stages, k: nat)
    requires k <= |CurveWrites(s)|
    ensures var t := ApplyAll(r, CurveWrites(s)[..k]);
            && t == r.(pianoRoll := t.pianoRoll, userCurve := t.userCurve)
            && t.pianoRoll in {r.pianoRoll, Newest(s.pianoRoll, r.pianoRoll)}
            && t.userCurve in {r.userCurve, Newest(s.userCurve, r.userCurve)}
            && (k == |CurveWrites(s)| ==>
                  t.pianoRoll == Newest(s.pianoRoll, r.pianoRoll) && t.userCurve == Newest(s.userCurve, r.userCurve))
  {
    var ws := CurveWrites(s)[..k];
    Unroll(r, ws);
  }

  lemma AggregatePhase(r: Row, from: Row, k: nat)
    requires k <= |AggregateWrites(from)| && from.scoring == r.scoring && from.snapshot == r.snapshot
    ensures var t := ApplyAll(r, AggregateWrites(from)[..k]);
            && t == r.(scoring := t.scoring, snapshot := t.snapshot)
            && t.scoring in {r.scoring, Newest(from.stages.aggregate, r.scoring)}
            && t.snapshot in {r.snapshot, SnapshotOf(from)}
            && (k == |AggregateWrites(from)| ==>
                  t.scoring == Newest(from.stages.aggregate, r.scoring) && t.snapshot == SnapshotOf(from))
  {
    var ws := AggregateWrites(from)[..k];
    Unroll(r, ws);
  }

  /** A list of at most three writes, applied one by one. */
  lemma Unroll(r: Row, ws: seq<Write>)
    requires |ws| <= 3
    ensures |ws| == 0 ==> ApplyAll(r, ws) == r
    ensures |ws| == 1 ==> ApplyAll(r, ws) == Apply(r, ws[0])
    ensures |ws| == 2 ==> ApplyAll(r, ws) == Apply(Apply(r, ws[0]), ws[1])
    ensures |ws| == 3 ==> ApplyAll(r, ws) == Apply(Apply(Apply(r, ws[0]), ws[1]), ws[2])
  {
    hide Apply;
    if |ws| > 0 {
      var xs := ws[..|ws| - 1];
      if |xs| > 0 {
        var ys := xs[..|xs| - 1];
        assert |ys| > 0 ==> ys[..|ys| - 1] == [];
      }
    }
  }

  lemma LastPhase(r: Row, versions: Blob, k: nat)
    requires k <= 3 && r.pending
    ensures var t := ApplyAll(r, [PruneDense, MarkDone(versions), AckAndRemove][..k]);
            t == if k == 0 then r
                 else if k == 1 then r.(stages := Pruned(r.stages))
                 else r.(stages := Pruned(r.stages), versions := Some(versions), status := Done, pending := k < 3)
  {
    Unroll(r, [PruneDense, MarkDone(versions), AckAndRemove][..k]);
  }

  /** Wherever a pass dies, the row is between its old and its final value; a full pass settles it. */
  lemma PassIsBetween(r: Row, versions: Blob, k: nat)
    requires r.pending && k <= |Tail(r, versions)|
    ensures Between(r, ApplyAll(r, Tail(r, versions)[..k]), versions)
    ensures k == |Tail(r, versions)| ==> ApplyAll(r, Tail(r, versions)[..k]) == Settled(r, versions)
    ensures k < |Tail(r, versions)| ==> ApplyAll(r, Tail(r, versions)[..k]).pending
  {
    hide ApplyAll, ScoreWrites, CurveWrites, AggregateWrites;
    var a, b, c := ScoreWrites(r.stages, ASPECTS), CurveWrites(r.stages), AggregateWrites(r);
    var d := [PruneDense, MarkDone(versions), AckAndRemove];
    assert Tail(r, versions) == ((a + b) + c) + d;
    var ka, kb := Min(k, |a|), Min(k, |a + b|) - Min(k, |a|);
    ScorePhase(r, ka);
    var ra := ApplyAll(r, a[..ka]);
    CurvePhase(ra, r.stages, kb);
    var rb := ApplyAll(ra, b[..kb]);
    var kc := Min(k, |a + b + c|) - Min(k, |a + b|);
    AggregatePhase(rb, r, kc);
    var rc := ApplyAll(rb, c[..kc]);
    var kd := k - Min(k, |a + b + c|);
    LastPhase(rc, versions, kd);
    var rd := ApplyAll(rc, d[..kd]);
    CutFour(r, a, b, c, d, k);
    assert ApplyAll(r, Tail(r, versions)[..k]) == rd;
  }

  lemma CutFour(r: Row, a: seq<Write>, b: seq<Write>, c: seq<Write>, d: seq<Write>, k: nat)
    requires k <= |a + b + c + d|
    ensures var ka, kb := Min(k, |a|), Min(k, |a + b|) - Min(k, |a|);
            var kc, kd := Min(k, |a + b + c|) - Min(k, |a + b|), k - Min(k, |a + b + c|);
            ApplyAll(r, (a + b + c + d)[..k])
            == ApplyAll(ApplyAll(ApplyAll(ApplyAll(r, a[..ka]), b[..kb]), c[..kc]), d[..kd])
  {
    hide Apply, ApplyAll;
    CutAppend(r, a + b + c, d, k);
    var k3 := Min(k, |a + b + c|);
    CutAppend(r, a + b, c, k3);
    var k2 := Min(k, |a + b|);
    CutAppend(r, a, b, k2);
    assert (a + b + c)[..|a + b + c|] == a + b + c && (a + b)[..|a + b|] == a + b && a[..|a|] == a;
    NoWrites(b[..0]);
    NoWrites(c[..0]);
    NoWrites(d[..0]);
  }

  lemma NoWrites(ws: seq<Write>)
    requires ws == []
    ensures forall r :: ApplyAll(r, ws) == r
  {
  }

  // ---------------------------------------------------------------- crash-replay theorems

  /** However often and wherever the worker died before, the delivery that gets through leaves exactly
      the row a crash-free pass would have left. */
  lemma {:induction false} CrashReplayIsIdempotent(r: Row, versions: Blob, ks: seq<nat>)
    requires r.pending
    ensures Finish(Crashes(r, versions, ks), versions) == Finish(r, versions) == Settled(r, versions)
    decreases |ks|
  {
    hide Tail, ApplyAll;
    PassIsBetween(r, versions, |Tail(r, versions)|);
    assert Tail(r, versions)[..|Tail(r, versions)|] == Tail(r, versions);
    if ks != [] {
      var k := Min(ks[0], |Tail(r, versions)|);
      PassIsBetween(r, versions, k);
      var s := Crash(r, versions, ks[0]);
      BetweenSettles(r, s, versions);
      if s.pending {
        CrashReplayIsIdempotent(s, versions, ks[1..]);
      } else {
        AckedStays(s, versions, ks[1..]);
      }
    }
  }

  lemma {:induction false} AckedStays(r: Row, versions: Blob, ks: seq<nat>)
    requires !r.pending
    ensures Crashes(r, versions, ks) == r
    decreases |ks|
  {
    if ks != [] { AckedStays(r, versions, ks[1..]); }
  }

  /** The curve is still staged or already saved. */
  predicate CurveKept(staged: Option<Blob>, saved: Option<Blob>, curve: Blob) {
    staged == Some(curve) || (staged == None && saved == Some(curve))
  }

  /** Pruning never loses a curve: at every point of every crash history each dense curve is staged or
      saved. */
  lemma {:induction false} CurvesAreNeverLost(r: Row, versions: Blob, ks: seq<nat>, roll: Blob, curve: Blob)
    requires CurveKept(r.stages.pianoRoll, r.pianoRoll, roll) && CurveKept(r.stages.userCurve, r.userCurve, curve)
    ensures var s := Crashes(r, versions, ks);
            CurveKept(s.stages.pianoRoll, s.pianoRoll, roll) && CurveKept(s.stages.userCurve, s.userCurve, curve)
    decreases |ks|
  {
    hide Tail, ApplyAll;
    if ks != [] {
      if r.pending {
        PassIsBetween(r, versions, Min(ks[0], |Tail(r, versions)|));
      }
      CurvesAreNeverLost(Crash(r, versions, ks[0]), versions, ks[1..], roll, curve);
    }
  }

  // ---------------------------------------------------------------- giving up on a job that got through

  /** The consumer gives up: the row is marked failed, whatever it says, and the entry removed. */
  function GiveUp(r: Row): Row {
    if r.pending then r.(status := Failed, pending := false) else r
  }

  /** What the next startup makes of an entry after the deliveries `ks`, which all died: it delivers it once
      more, or gives up once it was delivered too often. */
  function NextStartup(r: Row, versions: Blob, ks: seq<nat>): Row {
    var s := Crashes(r, versions, ks);
    if |ks| > Lifecycle.MAX_CLAIM_ATTEMPTS then GiveUp(s) else Finish(s, versions)
  }

  /** A job whose pipeline completed ends done iff it was acknowledged or not yet delivered too often; else
      the give-up overwrites the status, a done one too, and keeps everything stored. */
  lemma DoneIsFinalExactly(r: Row, versions: Blob, ks: seq<nat>)
    requires r.pending
    ensures var s, t := Crashes(r, versions, ks), NextStartup(r, versions, ks);
            && (t.status == Done <==> |ks| <= Lifecycle.MAX_CLAIM_ATTEMPTS || !s.pending)
            && (t.status == Done ==> t == Settled(r, versions))
            && (t.status != Done ==> t == s.(status := Failed, pending := false))
  {
    CrashReplayIsIdempotent(r, versions, ks);
  }

  /** Dying just before the acknowledgement leaves a done row whose entry is still pending. */
  lemma DoneButPending(r: Row, versions: Blob)
    requires r.pending
    ensures var s := Crash(r, versions, |Tail(r, versions)| - 1);
            s.pending && s.status == Done
  {
    var ws := Tail(r, versions);
    var n := |ws| - 1;
    PassIsBetween(r, versions, n);
    assert ws[n - 1] == MarkDone(versions);
    assert ws[..n][..n - 1] == ws[..n - 1];
    hide Tail;
    assert ApplyAll(r, ws[..n]) == Apply(ApplyAll(r, ws[..n - 1]), ws[n - 1]);
  }

  /** Every pass dies between marking the row done and acknowledging the entry. */
  function DyingBeforeTheAck(r: Row, versions: Blob, n: nat): seq<nat>
    decreases n
  {
    if n == 0 then []
    else
      var k := |Tail(r, versions)| - 1;
      [k] + DyingBeforeTheAck(Crash(r, versions, k), versions, n - 1)
  }

  lemma {:induction false} StaysDoneButPending(r: Row, versions: Blob, n: nat)
    requires r.pending
    ensures var s := Crashes(r, versions, DyingBeforeTheAck(r, versions, n));
            && s.pending && (n > 0 || r.status == Done ==> s.status == Done)
            && |DyingBeforeTheAck(r, versions, n)| == n
    decreases n
  {
    hide Tail, Crash;
    if n > 0 {
      var k := |Tail(r, versions)| - 1;
      DoneButPending(r, versions);
      StaysDoneButPending(Crash(r, versions, k), versions, n - 1);
      var ks := DyingBeforeTheAck(r, versions, n);
      assert ks[0] == k && ks[1..] == DyingBeforeTheAck(Crash(r, versions, k), versions, n - 1);
    }
  }

  /** So done is not terminal: four deaths in that gap, and the done row is marked failed. */
  lemma DoneIsOverwritten(r: Row, versions: Blob)
    requires r.pending
    ensures var ks := DyingBeforeTheAck(r, versions, 4);
            Crashes(r, versions, ks).status == Done && NextStartup(r, versions, ks).status == Failed
  {
    hide Crashes, DyingBeforeTheAck;
    StaysDoneButPending(r, versions, 4);
  }

  // ---------------------------------------------------------------- the handler itself

  class AnalysisRecord {
    const mode: Blob
    var stages: Stages
    var scores: map<Aspect, real>
    var pianoRoll: Option<Blob>
    var userCurve: Option<Blob>
    var scoring: Option<Aggregate>
    var snapshot: Option<Snapshot>
    var versions: Option<Blob>
    var status: Status
    var pending: bool

    constructor (mode: Blob, stages: Stages)
      ensures Value() == Row(mode, stages, map[], None, None, None, None, None, Processing, true)
    {
      this.mode, this.stages := mode, stages;
      scores, pianoRoll, userCurve, scoring, snapshot, versions := map[], None, None, None, None, None;
      status, pending := Processing, true;
    }

    function Value(): Row
      reads this
    {
      Row(mode, stages, scores, pianoRoll, userCurve, scoring, snapshot, versions, status, pending)
    }

    /** The first half of `_persist_scores`: one UPDATE per scored aspect. */
    method SaveScores() returns (ghost log: seq<Write>)
      modifies this`scores
      ensures log == ScoreWrites(stages, ASPECTS)
      ensures Value() == ApplyAll(old(Value()), log)
    {
      log := [];
      ghost var start := Value();
      var i := 0;
      while i < |ASPECTS|
        invariant i <= |ASPECTS|
        invariant log == ScoreWrites(stages, ASPECTS[..i]) && Value() == ApplyAll(start, log)
      {
        var aspect := ASPECTS[i];
        assert ASPECTS[..i + 1][..i] == ASPECTS[..i];
        ghost var more := ScoreWrite(stages, aspect);
        ApplyAppend(start, log, more);
        Unroll(Value(), more);
        if aspect in stages.scores {
          scores := scores[aspect := stages.scores[aspect]];
        }
        log := log + more;
        i := i + 1;
      }
      assert ASPECTS[..i] == ASPECTS;
    }

    /** Then the dense curves of the pitch stage. */
    method SaveCurves() returns (ghost log: seq<Write>)
      modifies this`pianoRoll, this`userCurve
      ensures log == CurveWrites(stages)
      ensures Value() == ApplyAll(old(Value()), log)
    {
      hide ApplyAll, CurveWrites;
      log := CurveWrites(stages);
      CurvePhase(Value(), stages, |log|);
      assert log[..|log|] == log;
      if stages.pianoRoll.Some? { pianoRoll := stages.pianoRoll; }
      if stages.userCurve.Some? { userCurve := stages.userCurve; }
    }

    /** Then the scoring result and the progress snapshot. */
    method SaveResult() returns (ghost log: seq<Write>)
      modifies this`scoring, this`snapshot
      ensures log == AggregateWrites(old(Value()))
      ensures Value() == ApplyAll(old(Value()), log)
    {
      log := AggregateWrites(Value());
      AggregatePhase(Value(), Value(), |log|);
      assert log[..|log|] == log;
      hide ApplyAll;
      if stages.aggregate.Some? {
        var a := stages.aggregate.value;
        scoring := Some(a);
        snapshot := Some(Snapshot(a.overall, mode, a.confidence));
      }
    }

    /** Then the staged copies go, the row is done and the entry is acknowledged. */
    method Close(newVersions: Blob) returns (ghost log: seq<Write>)
      requires pending
      modifies this
      ensures log == [PruneDense, MarkDone(newVersions), AckAndRemove]
      ensures Value() == ApplyAll(old(Value()), log)
    {
      log := [PruneDense, MarkDone(newVersions), AckAndRemove];
      LastPhase(Value(), newVersions, 3);
      assert log[..3] == log;
      hide ApplyAll;
      stages := stages.(pianoRoll := None, userCurve := None, referenceCurve := None);
      versions := Some(newVersions);
      status := Done;
      pending := false;
    }

    /** What follows a completed pipeline: exactly the writes of a pass, in that order. */
    method Complete(newVersions: Blob) returns (ghost log: seq<Write>)
      requires pending
      modifies this
      ensures log == Tail(old(Value()), newVersions)
      ensures Value() == Settled(old(Value()), newVersions)
      ensures status == Done && !pending && versions == Some(newVersions)
      ensures forall a :: a in scores <==> a in old(scores) || (a in old(stages).scores && a in ASPECTS)
      ensures forall a :: a in scores ==>
                            scores[a] == if a in old(stages).scores && a in ASPECTS then old(stages).scores[a]
                                         else old(scores)[a]
      ensures pianoRoll == if old(stages).pianoRoll.Some? then old(stages).pianoRoll else old(pianoRoll)
      ensures userCurve == if old(stages).userCurve.Some? then old(stages).userCurve else old(userCurve)
      ensures if old(stages).aggregate.Some? then
                var result := old(stages).aggregate.value;
                scoring == Some(result) && snapshot == Some(Snapshot(result.overall, mode, result.confidence))
              else scoring == old(scoring) && snapshot == old(snapshot)
      ensures stages == Stages(old(stages).scores, None, None, None, old(stages).aggregate)
    {
      hide ApplyAll, ScoreWrites, CurveWrites, AggregateWrites, Settled;
      ghost var start := Value();
      ghost var a := SaveScores();
      ghost var b := SaveCurves();
      SameAggregate(start, Value());
      ghost var c := SaveResult();
      ghost var d := Close(newVersions);
      log := a + b + c + d;
      assert log == Tail(start, newVersions);
      AppendFour(start, a, b, c, d);
      assert log[..|log|] == log;
      PassIsBetween(start, newVersions, |log|);
      SettledIs(start, newVersions);
    }
  }

  /** The settled row, column by column. */
  lemma SettledIs(r: Row, versions: Blob)
    ensures var s := Settled(r, versions);
            && s.mode == r.mode && s.status == Done && !s.pending && s.versions == Some(versions)
            && (forall a :: a in s.scores <==> a in r.scores || (a in r.stages.scores && a in ASPECTS))
            && (forall a :: a in s.scores ==>
                              s.scores[a] == if a in r.stages.scores && a in ASPECTS then r.stages.scores[a]
                                             else r.scores[a])
            && s.pianoRoll == (if r.stages.pianoRoll.Some? then r.stages.pianoRoll else r.pianoRoll)
            && s.userCurve == (if r.stages.userCurve.Some? then r.stages.userCurve else r.userCurve)
            && (if r.stages.aggregate.Some? then
                  var result := r.stages.aggregate.value;
                  && s.scoring == Some(result)
                  && s.snapshot == Some(Snapshot(result.overall, r.mode, result.confidence))
                else s.scoring == r.scoring && s.snapshot == r.snapshot)
            && s.stages == Stages(r.stages.scores, None, None, None, r.stages.aggregate)
  {
  }

  lemma AppendFour(r: Row, a: seq<Write>, b: seq<Write>, c: seq<Write>, d: seq<Write>)
    ensures ApplyAll(r, a + b + c + d) == ApplyAll(ApplyAll(ApplyAll(ApplyAll(r, a), b), c), d)
  {
    hide Apply;
    ApplyAppend(r, a, b);
    ApplyAppend(r, a + b, c);
    ApplyAppend(r, a + b + c, d);
  }

  lemma SameAggregate(r: Row, s: Row)
    requires r.stages == s.stages && r.mode == s.mode
    ensures AggregateWrites(r) == AggregateWrites(s)
  {
  }
}
