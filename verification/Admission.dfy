/** Admission of analyses under concurrency: any number of callers interleave their pre-checks, their
    rows and files, the atomic check-and-add, and their rollbacks, while consumers remove entries and
    retries and wakes publish unconditionally. */
module Admission {
  import opened Basics

  type Caller = nat
  type Job = nat

  /** Where one request is between its first read and its answer. */
  datatype Progress =
    | Fresh
    | PastCheck
    | FileWritten
    | RowCreated
    | Admitted
    | Refused
    | FileRemoved
    | AnsweredFull

  /** `admitted` are the callers whose entry is on the stream, `published` the unconditional entries. */
  datatype Shared = Shared(admitted: set<Caller>, published: set<Job>, rows: set<Caller>, files: set<Caller>,
                           at: map<Caller, Progress>)

  function Length(s: Shared): nat {
    |s.admitted| + |s.published|
  }

  function At(s: Shared, c: Caller): Progress {
    if c in s.at then s.at[c] else Fresh
  }

  datatype Move =
    | PreCheck(caller: Caller)
    | WriteFile(caller: Caller)
    | CreateRow(caller: Caller)
    | RunScript(caller: Caller)
    | RemoveFile(caller: Caller)
    | DeleteRow(caller: Caller)
    | Publish(job: Job)
    | ConsumeAdmitted(caller: Caller)
    | ConsumePublished(job: Job)

  function Go(s: Shared, c: Caller, p: Progress): Shared {
    s.(at := s.at[c := p])
  }

  /** One atomic move; a caller not at the right place does nothing. */
  function Step(s: Shared, maxLen: nat, m: Move): Shared {
    match m
    case PreCheck(c) =>
      if At(s, c) != Fresh then s
      else Go(s, c, if Length(s) >= maxLen then AnsweredFull else PastCheck)
    case WriteFile(c) => if At(s, c) != PastCheck then s else Go(s, c, FileWritten).(files := s.files + {c})
    case CreateRow(c) => if At(s, c) != FileWritten then s else Go(s, c, RowCreated).(rows := s.rows + {c})
    case RunScript(c) =>
      if At(s, c) != RowCreated then s
      else if Length(s) >= maxLen then Go(s, c, Refused)
      else Go(s, c, Admitted).(admitted := s.admitted + {c})
    case RemoveFile(c) => if At(s, c) != Refused then s else Go(s, c, FileRemoved).(files := s.files - {c})
    case DeleteRow(c) => if At(s, c) != FileRemoved then s else Go(s, c, AnsweredFull).(rows := s.rows - {c})
    case Publish(job) => s.(published := s.published + {job})
    case ConsumeAdmitted(c) => s.(admitted := s.admitted - {c})
    case ConsumePublished(job) => s.(published := s.published - {job})
  }

  function Exec(s: Shared, maxLen: nat, moves: seq<Move>): Shared
    decreases |moves|
  {
    if moves == [] then s else Exec(Step(s, maxLen, moves[0]), maxLen, moves[1..])
  }

  function Start(): Shared {
    Shared({}, {}, {}, {}, map[])
  }

  /** What a caller has in the system at each point of its request. */
  predicate Holds(s: Shared, c: Caller) {
    match At(s, c)
    case Fresh => c !in s.rows && c !in s.files && c !in s.admitted
    case PastCheck => c !in s.rows && c !in s.files && c !in s.admitted
    case FileWritten => c !in s.rows && c in s.files && c !in s.admitted
    case RowCreated => c in s.rows && c in s.files && c !in s.admitted
    case Admitted => c in s.rows && c in s.files
    case Refused => c in s.rows && c in s.files && c !in s.admitted
    case FileRemoved => c in s.rows && c !in s.files && c !in s.admitted
    case AnsweredFull => c !in s.rows && c !in s.files && c !in s.admitted
  }

  ghost predicate Sound(s: Shared, maxLen: nat) {
    |s.admitted| <= maxLen && forall c :: Holds(s, c)
  }

  /** Nobody's move disturbs what another caller holds. */
  lemma StepHolds(s: Shared, maxLen: nat, m: Move, c: Caller)
    requires Holds(s, c)
    ensures Holds(Step(s, maxLen, m), c)
  {
    hide Length;
    match m
    case PreCheck(d) =>
    case WriteFile(d) =>
    case CreateRow(d) =>
    case RunScript(d) =>
    case RemoveFile(d) =>
    case DeleteRow(d) =>
    case Publish(job) =>
    case ConsumeAdmitted(d) =>
    case ConsumePublished(job) =>
  }

  lemma StepKeeps(s: Shared, maxLen: nat, m: Move)
    requires Sound(s, maxLen)
    ensures Sound(Step(s, maxLen, m), maxLen)
  {
    forall c ensures Holds(Step(s, maxLen, m), c) {
      StepHolds(s, maxLen, m, c);
    }
    hide Holds;
    var t := Step(s, maxLen, m);
    if m.RunScript? && t.admitted != s.admitted {
      assert |s.admitted + {m.caller}| <= |s.admitted| + 1;
    }
    if m.ConsumeAdmitted? && m.caller in s.admitted {
      assert |s.admitted - {m.caller}| == |s.admitted| - 1;
    }
  }

  lemma {:induction false} SoundAlways(s: Shared, maxLen: nat, moves: seq<Move>)
    requires Sound(s, maxLen)
    ensures Sound(Exec(s, maxLen, moves), maxLen)
    decreases |moves|
  {
    hide Sound, Step;
    if moves != [] {
      StepKeeps(s, maxLen, moves[0]);
      SoundAlways(Step(s, maxLen, moves[0]), maxLen, moves[1..]);
    }
  }

  /** For every interleaving the stream is at most `maxLen` longer than its unconditional entries. */
  lemma NeverOverfull(maxLen: nat, moves: seq<Move>)
    ensures Length(Exec(Start(), maxLen, moves)) <= maxLen + |Exec(Start(), maxLen, moves).published|
  {
    SoundAlways(Start(), maxLen, moves);
  }

  /** A caller answered "queue full", by the pre-check or by the script, has left no row, file or entry. */
  lemma RefusedLeaveNothing(maxLen: nat, moves: seq<Move>, c: Caller)
    ensures var s := Exec(Start(), maxLen, moves);
            At(s, c) == AnsweredFull ==> c !in s.rows && c !in s.files && c !in s.admitted
  {
    SoundAlways(Start(), maxLen, moves);
    assert Holds(Exec(Start(), maxLen, moves), c);
  }

  // ---------------------------------------------------------------- the bound is attained

  lemma {:induction false} ExecAppend(s: Shared, maxLen: nat, xs: seq<Move>, ys: seq<Move>)
    ensures Exec(s, maxLen, xs + ys) == Exec(Exec(s, maxLen, xs), maxLen, ys)
    decreases |xs|
  {
    hide Step;
    if xs == [] {
      assert xs + ys == ys;
    } else {
      assert (xs + ys)[1..] == xs[1..] + ys;
      ExecAppend(Step(s, maxLen, xs[0]), maxLen, xs[1..], ys);
    }
  }

  /** `n` callers admitted one after the other, then `k` unconditional entries. */
  function Fill(n: nat, k: nat): seq<Move> {
    if k > 0 then Fill(n, k - 1) + [Publish(k - 1)]
    else if n > 0 then Fill(n - 1, 0) + [PreCheck(n - 1), WriteFile(n - 1), CreateRow(n - 1), RunScript(n - 1)]
    else []
  }

  lemma ExecOne(s: Shared, maxLen: nat, m: Move)
    ensures Exec(s, maxLen, [m]) == Step(s, maxLen, m)
  {
    hide Step;
    assert [m][1..] == [];
  }

  lemma ExecFour(s: Shared, maxLen: nat, a: Move, b: Move, c: Move, d: Move)
    ensures Exec(s, maxLen, [a, b, c, d]) == Step(Step(Step(Step(s, maxLen, a), maxLen, b), maxLen, c), maxLen, d)
  {
    hide Step;
    assert [a, b, c, d] == [a] + [b] + [c] + [d];
    ExecAppend(s, maxLen, [a] + [b] + [c], [d]);
    ExecAppend(s, maxLen, [a] + [b], [c]);
    ExecAppend(s, maxLen, [a], [b]);
    ExecOne(s, maxLen, a);
    ExecOne(Step(s, maxLen, a), maxLen, b);
    ExecOne(Step(Step(s, maxLen, a), maxLen, b), maxLen, c);
    ExecOne(Step(Step(Step(s, maxLen, a), maxLen, b), maxLen, c), maxLen, d);
  }

  /** The script answers "full" exactly when the stream is at its cap, and otherwise adds exactly the caller's entry;
      the cheap check before it turns a caller away by the length it sees. */
  lemma AnswersExactly(s: Shared, maxLen: nat, c: Caller)
    ensures At(s, c) == RowCreated ==>
              var t := Step(s, maxLen, RunScript(c));
              if Length(s) < maxLen then At(t, c) == Admitted && t == s.(admitted := s.admitted + {c}, at := t.at)
              else At(t, c) == Refused && t == s.(at := t.at)
    ensures At(s, c) == Fresh ==>
              var t := Step(s, maxLen, PreCheck(c));
              t == s.(at := t.at) && At(t, c) == if Length(s) < maxLen then PastCheck else AnsweredFull
    ensures forall d :: d != c ==>
                          At(Step(s, maxLen, RunScript(c)), d) == At(Step(s, maxLen, PreCheck(c)), d) == At(s, d)
  {
  }

  /** The stream really can hold `maxLen` entries and any number of unconditional ones on top. */
  lemma {:induction false} BoundIsTight(maxLen: nat, n: nat, k: nat)
    requires n <= maxLen
    ensures var s := Exec(Start(), maxLen, Fill(n, k));
            && |s.admitted| == n && |s.published| == k
            && (forall c :: c in s.admitted ==> c < n) && (forall c :: c >= n ==> At(s, c) == Fresh)
            && (forall j :: j in s.published ==> j < k)
    decreases n, k
  {
    hide Step, Exec, At;
    if k > 0 {
      BoundIsTight(maxLen, n, k - 1);
      ExecAppend(Start(), maxLen, Fill(n, k - 1), [Publish(k - 1)]);
      var s := Exec(Start(), maxLen, Fill(n, k - 1));
      ExecOne(s, maxLen, Publish(k - 1));
      OnePublished(s, maxLen, k - 1);
    } else if n > 0 {
      BoundIsTight(maxLen, n - 1, 0);
      var c := n - 1;
      var last := [PreCheck(c), WriteFile(c), CreateRow(c), RunScript(c)];
      ExecAppend(Start(), maxLen, Fill(c, 0), last);
      var s := Exec(Start(), maxLen, Fill(c, 0));
      ExecFour(s, maxLen, PreCheck(c), WriteFile(c), CreateRow(c), RunScript(c));
      OneMore(s, maxLen, c);
    } else {
      NothingDone(maxLen);
    }
  }

  lemma NothingDone(maxLen: nat)
    ensures Exec(Start(), maxLen, []) == Start() && forall c :: At(Start(), c) == Fresh
  {
  }

  lemma OnePublished(s: Shared, maxLen: nat, job: Job)
    ensures var t := Step(s, maxLen, Publish(job));
            && t.published == s.published + {job} && t.admitted == s.admitted
            && forall c :: At(t, c) == At(s, c)
  {
  }

  lemma OneMore(s: Shared, maxLen: nat, c: Caller)
    requires At(s, c) == Fresh && Length(s) < maxLen
    ensures var t := Step(Step(Step(Step(s, maxLen, PreCheck(c)), maxLen, WriteFile(c)),
                               maxLen, CreateRow(c)), maxLen, RunScript(c));
            && t.admitted == s.admitted + {c} && t.published == s.published
            && forall d :: d != c ==> At(t, d) == At(s, d)
  {
  }
}
